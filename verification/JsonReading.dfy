// The tokenizer on JSON texts: it finds exactly the tokens that the text stands for. The text of a value may stand
// anywhere, below any parent, as long as a delimiter or nothing follows it; the proofs follow the grammar and chain
// the tokenizer's steps.
module JsonReading {
  import opened Bytes
  import opened Options
  import opened Sequences
  import opened JsonTokens
  import opened JsonGrammar

  // ---------------------------------------------------------------- the tokens of a value

  predicate HasEscape(ps: seq<Piece>) {
    ps != [] && (!ps[0].Raw? || HasEscape(ps[1..]))
  }

  function TextKind(ps: seq<Piece>): Kind {
    if HasEscape(ps) then Escaped else Plain
  }

  /** The tokens of the value at `off`, the first of them token number `idx`. */
  function TokensOf(n: Node, off: nat, idx: nat, parent: int): (toks: seq<Token>)
    ensures |toks| > 0
    decreases n, 1
  {
    match n
    case Word(atom) => [Token(Primitive, off, off + |SpellAtom(atom)|, 0, parent)]
    case Text(ps) => [Token(TextKind(ps), off + 1, off + 1 + |Spell(ps)|, 0, parent)]
    case Items(gap, items) =>
      [Token(Arr, off, off + |Render(n)|, |items|, parent)] + SeqTokens(items, off + 1 + |gap|, idx + 1, idx)
    case Members(gap, members) =>
      [Token(Object, off, off + |Render(n)|, |members|, parent)] + MembersTokens(members, off + 1 + |gap|, idx + 1, idx)
  }

  function SeqTokens(items: seq<Item>, off: nat, idx: nat, parent: int): seq<Token>
    decreases items, 0
  {
    if items == [] then []
    else
      var first := ItemTokens(items[0], off, idx, parent);
      first + SeqTokens(items[1..], off + |RenderItem(items[0])| + 1, idx + |first|, parent)
  }

  function ItemTokens(x: Item, off: nat, idx: nat, parent: int): (toks: seq<Token>)
    ensures |toks| > 0
    decreases x, 2
  {
    TokensOf(x.node, off + |x.before|, idx, parent)
  }

  function MembersTokens(members: seq<Member>, off: nat, idx: nat, parent: int): seq<Token>
    decreases members, 0
  {
    if members == [] then []
    else
      var first := PairTokens(members[0], off, idx, parent);
      first + MembersTokens(members[1..], off + |RenderMember(members[0])| + 1, idx + |first|, parent)
  }

  /** The value is a child of its name. */
  function PairTokens(m: Member, off: nat, idx: nat, parent: int): (toks: seq<Token>)
    ensures |toks| > 1
    decreases m, 3
  {
    [NameToken(m, off, 1, parent)] + ItemTokens(m.item, off + NameLength(m), idx + 1, idx)
  }

  function NameToken(m: Member, off: nat, size: nat, parent: int): Token {
    Token(TextKind(m.name), off + |m.before| + 1, off + |m.before| + 1 + |Spell(m.name)|, size, parent)
  }

  /** Up to and including the colon. */
  function NameLength(m: Member): nat {
    |m.before| + |InQuotes(m.name)| + |m.behind| + 1
  }

  /** How many there are does not depend on where the text is. */
  function TokenCount(n: Node): nat
    decreases n, 1
  {
    match n
    case Items(_, items) => 1 + SeqCount(items)
    case Members(_, members) => 1 + MembersCount(members)
    case _ => 1
  }

  function SeqCount(items: seq<Item>): nat
    decreases items, 0
  {
    if items == [] then 0 else ItemCount(items[0]) + SeqCount(items[1..])
  }

  function ItemCount(x: Item): nat
    decreases x, 2
  {
    TokenCount(x.node)
  }

  function MembersCount(members: seq<Member>): nat
    decreases members, 0
  {
    if members == [] then 0 else PairCount(members[0]) + MembersCount(members[1..])
  }

  function PairCount(m: Member): nat
    decreases m, 3
  {
    1 + ItemCount(m.item)
  }

  lemma {:induction false} TokensCounted(n: Node, off: nat, idx: nat, parent: int)
    ensures |TokensOf(n, off, idx, parent)| == TokenCount(n)
    decreases n, 1
  {
    match n
    case Items(gap, items) => SeqCounted(items, off + 1 + |gap|, idx + 1, idx);
    case Members(gap, members) => MembersCounted(members, off + 1 + |gap|, idx + 1, idx);
    case _ =>
  }

  lemma {:induction false} SeqCounted(items: seq<Item>, off: nat, idx: nat, parent: int)
    ensures |SeqTokens(items, off, idx, parent)| == SeqCount(items)
    decreases items, 0
  {
    if items != [] {
      ItemCounted(items[0], off, idx, parent);
      SeqCounted(items[1..], off + |RenderItem(items[0])| + 1, idx + ItemCount(items[0]), parent);
    }
  }

  lemma {:induction false} ItemCounted(x: Item, off: nat, idx: nat, parent: int)
    ensures |ItemTokens(x, off, idx, parent)| == ItemCount(x)
    decreases x, 2
  {
    TokensCounted(x.node, off + |x.before|, idx, parent);
  }

  lemma {:induction false} MembersCounted(members: seq<Member>, off: nat, idx: nat, parent: int)
    ensures |MembersTokens(members, off, idx, parent)| == MembersCount(members)
    decreases members, 0
  {
    if members != [] {
      PairCounted(members[0], off, idx, parent);
      MembersCounted(members[1..], off + |RenderMember(members[0])| + 1, idx + PairCount(members[0]), parent);
    }
  }

  lemma {:induction false} PairCounted(m: Member, off: nat, idx: nat, parent: int)
    ensures |PairTokens(m, off, idx, parent)| == PairCount(m)
    decreases m, 3
  {
    ItemCounted(m.item, off + NameLength(m), idx + 1, idx);
  }

  // ---------------------------------------------------------------- the estimate

  function Weight(c: Byte): nat {
    if c == COMMA || c == '{' as int then 1 else if c == COLON || c == '[' as int then 2 else 0
  }

  function Weights(text: seq<Byte>): nat {
    if text == [] then 0 else Weight(text[0]) + Weights(text[1..])
  }

  /** The approximate token count of iot_data_from_json_with_cache. */
  function Estimate(text: seq<Byte>): nat {
    1 + Weights(text)
  }

  lemma {:induction false} WeightsConcat(a: seq<Byte>, b: seq<Byte>)
    ensures Weights(a + b) == Weights(a) + Weights(b)
  {
    if a == [] {
      NoPrefix(b);
    } else {
      assert (a + b)[1..] == a[1..] + b;
      WeightsConcat(a[1..], b);
    }
  }

  /** The estimate suffices for every text. */
  lemma {:induction false} EstimateSuffices(n: Node)
    ensures TokenCount(n) <= Estimate(Render(n))
    decreases n, 1
  {
    hide RenderItems, RenderMembers, Weights;
    match n
    case Items(gap, items) =>
      SeqEstimate(items);
      InBrackets(0x5B, gap, RenderItems(items), 0x5D);
    case Members(gap, members) =>
      MembersEstimate(members);
      InBrackets(0x7B, gap, RenderMembers(members), 0x7D);
    case _ =>
  }

  lemma InBrackets(open: Byte, gap: seq<Byte>, body: seq<Byte>, close: Byte)
    ensures Weights([open] + (gap + body) + [close]) >= Weight(open) + Weights(body)
  {
    WeightsConcat(gap, body);
    WeightsConcat([open], gap + body);
    WeightsConcat([open] + (gap + body), [close]);
    WeightOf(open);
    hide Weights;
  }

  lemma WeightOf(c: Byte)
    ensures Weights([c]) == Weight(c)
  {
  }

  lemma {:induction false} SeqEstimate(items: seq<Item>)
    ensures SeqCount(items) <= Weights(RenderItems(items)) + 1
    decreases items, 0
  {
    if items != [] {
      ItemEstimate(items[0]);
      SeqEstimate(items[1..]);
      hide RenderItem, Weights, ItemCount;
      if |items| > 1 {
        WeightOf(COMMA);
        WeightsConcat([COMMA], RenderItems(items[1..]));
        WeightsConcat(RenderItem(items[0]), [COMMA] + RenderItems(items[1..]));
      } else {
        NoSuffix(RenderItem(items[0]));
      }
    }
  }

  lemma {:induction false} ItemEstimate(x: Item)
    ensures ItemCount(x) <= 1 + Weights(RenderItem(x))
    decreases x, 2
  {
    EstimateSuffices(x.node);
    hide Render, Weights, TokenCount;
    WeightsConcat(Render(x.node), x.after);
    WeightsConcat(x.before, Render(x.node) + x.after);
  }

  lemma {:induction false} MembersEstimate(members: seq<Member>)
    ensures MembersCount(members) <= Weights(RenderMembers(members))
    decreases members, 0
  {
    if members != [] {
      PairEstimate(members[0]);
      MembersEstimate(members[1..]);
      hide RenderMember, Weights, PairCount;
      if |members| > 1 {
        WeightsConcat([COMMA], RenderMembers(members[1..]));
        WeightsConcat(RenderMember(members[0]), [COMMA] + RenderMembers(members[1..]));
      } else {
        NoSuffix(RenderMember(members[0]));
      }
    }
  }

  lemma {:induction false} PairEstimate(m: Member)
    ensures PairCount(m) <= Weights(RenderMember(m))
    decreases m, 3
  {
    ItemEstimate(m.item);
    hide InQuotes, RenderItem, Weights, ItemCount;
    var value := [COLON] + RenderItem(m.item);
    WeightOf(COLON);
    WeightsConcat([COLON], RenderItem(m.item));
    WeightsConcat(m.behind, value);
    WeightsConcat(InQuotes(m.name), m.behind + value);
    WeightsConcat(m.before, InQuotes(m.name) + (m.behind + value));
  }

  // ---------------------------------------------------------------- scanning

  /** The text js has s at offset i. */
  ghost predicate HasAt(js: seq<Byte>, i: nat, s: seq<Byte>) {
    i + |s| <= |js| && js[i..i + |s|] == s
  }

  lemma HasParts(js: seq<Byte>, i: nat, a: seq<Byte>, b: seq<Byte>)
    requires HasAt(js, i, a + b)
    ensures HasAt(js, i, a) && HasAt(js, i + |a|, b)
  {
    assert js[i..i + |a|] == js[i..i + |a + b|][..|a|];
    assert js[i + |a|..i + |a| + |b|] == js[i..i + |a + b|][|a|..];
  }

  lemma HasFirst(js: seq<Byte>, i: nat, s: seq<Byte>)
    requires HasAt(js, i, s) && s != []
    ensures i < |js| && js[i] == s[0] && HasAt(js, i + 1, s[1..])
  {
    assert js[i..i + |s|][0] == s[0];
    assert s == [s[0]] + s[1..];
    HasParts(js, i, [s[0]], s[1..]);
  }

  /** The scan passes over one piece of a string. */
  lemma ScanPiece(js: seq<Byte>, i: nat, p: Piece, escaped: bool)
    requires NUL !in js && PieceFits(p) && HasAt(js, i, SpellPiece(p)) && i + |SpellPiece(p)| < |js|
    ensures StringEnd(js, i, escaped) == StringEnd(js, i + |SpellPiece(p)|, escaped || !p.Raw?)
  {
    var e := SpellPiece(p);
    assert forall k :: 0 <= k < |e| ==> js[i + k] == js[i..i + |e|][k] == e[k];
    assert js[i] == e[0];
    match p
    case Raw(_) =>
    case Short(letter) => assert js[i + 1] == letter;
    case Universal(_, digits) =>
      assert |e| == 6 && e[1] == 0x75 && e[2] == digits[0] && e[3] == digits[1] && e[4] == digits[2] && e[5] == digits[3];
      assert js[i + 1] == e[1] && js[i + 2] == e[2] && js[i + 3] == e[3] && js[i + 4] == e[4] && js[i + 5] == e[5];
      FourDigits(js, i + 2);
  }

  lemma FourDigits(js: seq<Byte>, i: nat)
    requires NUL !in js && i + 4 <= |js|
    requires IsHexDigit(js[i]) && IsHexDigit(js[i + 1]) && IsHexDigit(js[i + 2]) && IsHexDigit(js[i + 3])
    ensures HexEnd(js, i, 4) == Some(i + 4)
  {
    assert HexEnd(js, i + 4, 0) == Some(i + 4);
    assert HexEnd(js, i + 3, 1) == HexEnd(js, i + 4, 0);
    assert HexEnd(js, i + 2, 2) == HexEnd(js, i + 3, 1);
  }

  /** The scan of a string ends at its closing quote and notices its escapes. */
  lemma {:induction false} ScanString(js: seq<Byte>, i: nat, ps: seq<Piece>, escaped: bool)
    requires NUL !in js && PiecesFit(ps) && HasAt(js, i, Spell(ps) + [QUOTE])
    ensures StringEnd(js, i, escaped) == Found(i + |Spell(ps)|, escaped || HasEscape(ps))
    decreases |ps|
  {
    hide *;
    if ps == [] {
      EmptyString(js, i, escaped);
    } else {
      var e := SpellPiece(ps[0]);
      var rest := Spell(ps[1..]);
      SpellIs(ps);
      Assoc(e, rest, [QUOTE]);
      HasParts(js, i, e, rest + [QUOTE]);
      HasRoom(js, i + |e|, rest + [QUOTE]);
      ScanPiece(js, i, ps[0], escaped);
      ScanString(js, i + |e|, ps[1..], escaped || !ps[0].Raw?);
    }
  }

  lemma EmptyString(js: seq<Byte>, i: nat, escaped: bool)
    requires NUL !in js && HasAt(js, i, Spell([]) + [QUOTE])
    ensures StringEnd(js, i, escaped) == Found(i + |Spell([])|, escaped || HasEscape([]))
  {
    NoPrefix([QUOTE]);
    HasFirst(js, i, [QUOTE]);
  }

  lemma SpellIs(ps: seq<Piece>)
    requires ps != [] && PiecesFit(ps)
    ensures Spell(ps) == SpellPiece(ps[0]) + Spell(ps[1..]) && PieceFits(ps[0]) && PiecesFit(ps[1..])
    ensures HasEscape(ps) <==> !ps[0].Raw? || HasEscape(ps[1..])
  {
    hide SpellPiece, PieceFits;
  }

  lemma HasRoom(js: seq<Byte>, i: nat, s: seq<Byte>)
    requires HasAt(js, i, s)
    ensures i + |s| <= |js|
  {
  }

  predicate Bare(c: Byte) {
    32 < c < 127 && !Delimits(c)
  }

  /** A primitive ends at the first delimiter or with the text. */
  lemma {:induction false} ScanPrimitive(js: seq<Byte>, i: nat, s: seq<Byte>)
    requires NUL !in js && HasAt(js, i, s) && forall k :: 0 <= k < |s| ==> Bare(s[k])
    requires i + |s| == |js| || Delimits(js[i + |s|])
    ensures PrimitiveEnd(js, i) == Some(i + |s|)
    decreases |s|
  {
    if s != [] {
      HasFirst(js, i, s);
      ScanPrimitive(js, i + 1, s[1..]);
    }
  }

  lemma NumeralIsBare(s: seq<Byte>)
    requires Numeral(s)
    ensures forall k :: 0 <= k < |s| ==> Bare(s[k])
  {
  }

  ghost predicate AllBare(s: seq<Byte>) {
    forall k :: 0 <= k < |s| ==> Bare(s[k])
  }

  lemma JoinBare(a: seq<Byte>, b: seq<Byte>)
    requires AllBare(a) && AllBare(b)
    ensures AllBare(a + b)
  {
    hide Bare;
  }

  lemma FractionIsBare(s: seq<Byte>)
    requires s != [] ==> |s| > 1 && s[0] == 0x2E && Numeral(s[1..])
    ensures AllBare(s)
  {
    if s != [] {
      NumeralIsBare(s[1..]);
      assert s == [0x2E] + s[1..];
    }
  }

  lemma ExponentIsBare(s: seq<Byte>)
    requires s != [] ==> ExponentPart(s)
    ensures AllBare(s)
  {
    if s != [] {
      if s[1] == 0x2B || s[1] == 0x2D {
        NumeralIsBare(s[2..]);
        assert s == [s[0], s[1]] + s[2..];
      } else {
        NumeralIsBare(s[1..]);
        assert s == [s[0]] + s[1..];
      }
    }
  }

  lemma AtomsAreBare(a: Atom)
    requires Grammatical(a)
    ensures SpellAtom(a) != [] && AllBare(SpellAtom(a))
    ensures !Opens(SpellAtom(a)[0]) && SpellAtom(a)[0] != QUOTE
  {
    if a.Number? {
      var sign: seq<Byte> := if a.minus then [0x2D] else [];
      NumeralIsBare(a.whole);
      FractionIsBare(a.fraction);
      ExponentIsBare(a.exponent);
      hide ExponentPart;
      JoinBare(sign, a.whole);
      JoinBare(a.fraction, a.exponent);
      JoinBare(sign + a.whole, a.fraction + a.exponent);
    }
  }

  // ---------------------------------------------------------------- the shape of the tokens

  /** All finished, and every parent between the given one and the token itself. */
  ghost predicate Settled(toks: seq<Token>, idx: nat, parent: int) {
    forall j :: 0 <= j < |toks| ==> !Open(toks[j]) && parent <= toks[j].parent < idx + j
  }

  lemma SettledJoin(a: seq<Token>, b: seq<Token>, idx: nat, parent: int, inner: int)
    requires Settled(a, idx, parent) && Settled(b, idx + |a|, inner) && parent <= inner
    ensures Settled(a + b, idx, parent)
  {
  }

  lemma {:induction false} TokensSettled(n: Node, off: nat, idx: nat, parent: int)
    requires parent < idx
    ensures Settled(TokensOf(n, off, idx, parent), idx, parent)
    decreases n, 1
  {
    hide Settled, Render, SeqTokens, MembersTokens;
    FirstSettled(TokensOf(n, off, idx, parent)[0], idx, parent);
    match n
    case Items(gap, items) =>
      SeqSettled(items, off + 1 + |gap|, idx + 1, idx);
      SettledJoin([TokensOf(n, off, idx, parent)[0]], SeqTokens(items, off + 1 + |gap|, idx + 1, idx), idx, parent, idx);
    case Members(gap, members) =>
      MembersSettled(members, off + 1 + |gap|, idx + 1, idx);
      SettledJoin([TokensOf(n, off, idx, parent)[0]], MembersTokens(members, off + 1 + |gap|, idx + 1, idx), idx, parent, idx);
    case _ =>
  }

  lemma FirstSettled(t: Token, idx: nat, parent: int)
    requires parent < idx && t.parent == parent && t.end >= 0
    ensures Settled([t], idx, parent)
  {
  }

  lemma {:induction false} SeqSettled(items: seq<Item>, off: nat, idx: nat, parent: int)
    requires parent < idx
    ensures Settled(SeqTokens(items, off, idx, parent), idx, parent)
    decreases items, 0
  {
    if items != [] {
      var first := ItemTokens(items[0], off, idx, parent);
      ItemSettled(items[0], off, idx, parent);
      SeqSettled(items[1..], off + |RenderItem(items[0])| + 1, idx + |first|, parent);
      hide Settled, ItemTokens;
      SettledJoin(first, SeqTokens(items[1..], off + |RenderItem(items[0])| + 1, idx + |first|, parent), idx, parent, parent);
    }
  }

  lemma {:induction false} ItemSettled(x: Item, off: nat, idx: nat, parent: int)
    requires parent < idx
    ensures Settled(ItemTokens(x, off, idx, parent), idx, parent)
    decreases x, 2
  {
    TokensSettled(x.node, off + |x.before|, idx, parent);
  }

  lemma {:induction false} MembersSettled(members: seq<Member>, off: nat, idx: nat, parent: int)
    requires parent < idx
    ensures Settled(MembersTokens(members, off, idx, parent), idx, parent)
    decreases members, 0
  {
    if members != [] {
      var first := PairTokens(members[0], off, idx, parent);
      var off' := off + |RenderMember(members[0])| + 1;
      PairSettled(members[0], off, idx, parent);
      MembersSettled(members[1..], off', idx + |first|, parent);
      hide Settled, PairTokens, RenderMember;
      SettledJoin(first, MembersTokens(members[1..], off', idx + |first|, parent), idx, parent, parent);
    }
  }

  lemma {:induction false} PairSettled(m: Member, off: nat, idx: nat, parent: int)
    requires parent < idx
    ensures Settled(PairTokens(m, off, idx, parent), idx, parent)
    decreases m, 3
  {
    ItemSettled(m.item, off + NameLength(m), idx + 1, idx);
    var name := [NameToken(m, off, 1, parent)];
    assert Settled(name, idx, parent);
    hide Settled, ItemTokens, NameLength;
    SettledJoin(name, ItemTokens(m.item, off + NameLength(m), idx + 1, idx), idx, parent, idx);
  }

  // ---------------------------------------------------------------- reading

  /** n more children for token k. */
  function BumpN(toks: seq<Token>, k: nat, n: nat): (bumped: seq<Token>)
    requires k < |toks|
    ensures |bumped| == |toks|
  {
    toks[k := toks[k].(size := toks[k].size + n)]
  }

  lemma StepTo(js: seq<Byte>, max: nat, p: Parser, q: Parser)
    requires Sane(p) && !AtEnd(js, p.pos) && Step(js, max, p) == Ok(q)
    ensures Sane(q) && Tokenize(js, max, p) == Tokenize(js, max, q)
  {
    hide Step;
  }

  /** The tokenizer after the text of a value. */
  function After(p: Parser, n: Node): Parser
    requires -1 <= p.super < |p.toks|
  {
    p.(pos := p.pos + |Render(n)|,
       toks := Bump(p.toks, p.super) + TokensOf(n, p.pos, |p.toks|, p.super),
       count := p.count + TokenCount(n))
  }

  function AfterItem(p: Parser, x: Item): Parser
    requires -1 <= p.super < |p.toks|
  {
    p.(pos := p.pos + |RenderItem(x)|,
       toks := Bump(p.toks, p.super) + ItemTokens(x, p.pos, |p.toks|, p.super),
       count := p.count + ItemCount(x))
  }

  function AfterSeq(p: Parser, items: seq<Item>): Parser
    requires 0 <= p.super < |p.toks|
  {
    p.(pos := p.pos + |RenderItems(items)|,
       toks := BumpN(p.toks, p.super, |items|) + SeqTokens(items, p.pos, |p.toks|, p.super),
       count := p.count + SeqCount(items))
  }

  /** A value may stand here: what follows it is a delimiter or nothing. */
  ghost predicate Fits(js: seq<Byte>, max: nat, p: Parser, text: seq<Byte>, tokens: nat) {
    && NUL !in js && HasAt(js, p.pos, text) && Sane(p) && |p.toks| + tokens <= max
    && (p.pos + |text| == |js| || Delimits(js[p.pos + |text|]))
  }

  lemma ReadsString(js: seq<Byte>, max: nat, ps: seq<Piece>, p: Parser)
    requires PiecesFit(ps) && NUL !in js && HasAt(js, p.pos, InQuotes(ps)) && Sane(p) && |p.toks| < max
    ensures !AtEnd(js, p.pos) && Step(js, max, p) ==
      Ok(Add(p, TextKind(ps), p.pos + 1, p.pos + 1 + |Spell(ps)|).(pos := p.pos + |Spell(ps)| + 2))
  {
    hide StringEnd, Spell, Close, PrimitiveEnd, HasAt, Add, Sane, InQuotes, HasEscape, PiecesFit;
    StringHere(js, p.pos, ps);
  }

  lemma StringHere(js: seq<Byte>, i: nat, ps: seq<Piece>)
    requires PiecesFit(ps) && NUL !in js && HasAt(js, i, InQuotes(ps))
    ensures i < |js| && js[i] == QUOTE
    ensures StringEnd(js, i + 1, false) == Found(i + 1 + |Spell(ps)|, HasEscape(ps))
  {
    hide StringEnd, Spell, HasAt, HasEscape, PiecesFit;
    Assoc([QUOTE], Spell(ps), [QUOTE]);
    HasParts(js, i, [QUOTE], Spell(ps) + [QUOTE]);
    HasFirst(js, i, [QUOTE]);
    ScanString(js, i + 1, ps, false);
  }

  lemma ReadsPrimitive(js: seq<Byte>, max: nat, text: seq<Byte>, p: Parser)
    requires Fits(js, max, p, text, 1) && text != [] && AllBare(text)
    requires !Opens(text[0]) && text[0] != QUOTE
    ensures !AtEnd(js, p.pos)
    ensures Step(js, max, p) == Ok(Add(p, Primitive, p.pos, p.pos + |text|).(pos := p.pos + |text|))
  {
    HasFirst(js, p.pos, text);
    ScanPrimitive(js, p.pos, text);
    hide StringEnd, Close, PrimitiveEnd, HasAt;
  }

  /** From p the tokenizer comes to q. */
  ghost predicate Comes(js: seq<Byte>, max: nat, p: Parser, q: Parser) {
    Sane(p) && Sane(q) && Tokenize(js, max, p) == Tokenize(js, max, q)
  }

  lemma Stepping(js: seq<Byte>, max: nat, p: Parser, q: Parser)
    requires Sane(p) && !AtEnd(js, p.pos) && Step(js, max, p) == Ok(q)
    ensures Comes(js, max, p, q)
  {
    StepTo(js, max, p, q);
  }

  lemma Chain(js: seq<Byte>, max: nat, p: Parser, q: Parser, r: Parser)
    requires Comes(js, max, p, q) && Comes(js, max, q, r)
    ensures Comes(js, max, p, r)
  {
  }

  /** The walk from token i reaches the open token k behind which everything is settled. */
  lemma {:induction false} WalkReaches(p: Parser, i: nat, k: nat, rest: seq<Token>, front: seq<Token>, kind: Kind)
    requires Sane(p) && p.toks == front + rest && |front| == k + 1 && k <= i < |p.toks|
    requires Settled(rest, k + 1, k) && Open(front[k]) && front[k].kind == kind
    ensures Close(p, i, kind) ==
      Ok(p.(toks := front[k := front[k].(end := p.pos + 1)] + rest, super := front[k].parent))
    decreases i
  {
    if i == k {
      assert p.toks[k := front[k].(end := p.pos + 1)] == front[k := front[k].(end := p.pos + 1)] + rest;
    } else {
      assert p.toks[i] == rest[i - (k + 1)];
      WalkReaches(p, p.toks[i].parent, k, rest, front, kind);
    }
  }

  lemma OpenStep(js: seq<Byte>, max: nat, c: Byte, p: Parser)
    requires Sane(p) && p.pos < |js| && js[p.pos] == c && Opens(c) && |p.toks| < max
    ensures Comes(js, max, p,
      p.(pos := p.pos + 1, super := |p.toks|, count := p.count + 1,
         toks := Bump(p.toks, p.super) + [Token(if c == '{' as int then Object else Arr, p.pos, -1, 0, p.super)]))
  {
    Stepping(js, max, p, Step(js, max, p).p);
  }

  lemma CloseStep(js: seq<Byte>, max: nat, p: Parser, k: nat, rest: seq<Token>, front: seq<Token>, c: Byte)
    requires Sane(p) && p.toks == front + rest && |front| == k + 1 && Settled(rest, k + 1, k) && Open(front[k])
    requires p.pos < |js| && js[p.pos] == c && Closes(c)
    requires front[k].kind == if c == '}' as int then Object else Arr
    ensures Comes(js, max, p,
      p.(pos := p.pos + 1, toks := front[k := front[k].(end := p.pos + 1)] + rest, super := front[k].parent))
  {
    WalkReaches(p, |p.toks| - 1, k, rest, front, front[k].kind);
    hide Close, Settled;
    Stepping(js, max, p, Step(js, max, p).p);
  }

  lemma CommaInArray(js: seq<Byte>, max: nat, p: Parser)
    requires Sane(p) && p.pos < |js| && js[p.pos] == COMMA && p.super >= 0 && p.toks[p.super].kind == Arr
    ensures Comes(js, max, p, p.(pos := p.pos + 1))
  {
    Stepping(js, max, p, p.(pos := p.pos + 1));
  }

  lemma CommaAfterKey(js: seq<Byte>, max: nat, p: Parser)
    requires Sane(p) && p.pos < |js| && js[p.pos] == COMMA && p.super >= 0
    requires p.toks[p.super].kind == Plain || p.toks[p.super].kind == Escaped
    ensures Comes(js, max, p, p.(pos := p.pos + 1, super := p.toks[p.super].parent))
  {
    Stepping(js, max, p, p.(pos := p.pos + 1, super := p.toks[p.super].parent));
  }

  lemma ColonStep(js: seq<Byte>, max: nat, p: Parser)
    requires Sane(p) && p.pos < |js| && js[p.pos] == COLON
    ensures Comes(js, max, p, p.(pos := p.pos + 1, super := |p.toks| - 1))
  {
    Stepping(js, max, p, p.(pos := p.pos + 1, super := |p.toks| - 1));
  }

  /** White space between tokens is skipped. */
  lemma {:induction false} SkipGap(js: seq<Byte>, max: nat, gap: seq<Byte>, p: Parser)
    requires Gap(gap) && NUL !in js && HasAt(js, p.pos, gap) && Sane(p)
    ensures Comes(js, max, p, p.(pos := p.pos + |gap|))
    decreases |gap|
  {
    if gap == [] {
      assert p.(pos := p.pos + |gap|) == p;
    } else {
      var q := p.(pos := p.pos + 1);
      HasFirst(js, p.pos, gap);
      SkipOne(js, max, p);
      GapRest(gap);
      hide Tokenize, Gap, HasAt, Comes;
      ComesSane(js, max, p, q);
      SkipGap(js, max, gap[1..], q);
      Chain(js, max, p, q, p.(pos := p.pos + |gap|));
    }
  }

  lemma GapRest(gap: seq<Byte>)
    requires Gap(gap) && gap != []
    ensures Gap(gap[1..])
  {
  }

  lemma SkipOne(js: seq<Byte>, max: nat, p: Parser)
    requires Sane(p) && p.pos < |js| && (js[p.pos] == 0x20 || js[p.pos] == 0x09 || js[p.pos] == 0x0A || js[p.pos] == 0x0D)
    ensures Comes(js, max, p, p.(pos := p.pos + 1))
  {
    Stepping(js, max, p, p.(pos := p.pos + 1));
  }

  // ---------------------------------------------------------------- reading a value

  lemma {:induction false} Reads(js: seq<Byte>, max: nat, n: Node, p: Parser)
    requires Valid(n) && Fits(js, max, p, Render(n), TokenCount(n))
    ensures Comes(js, max, p, After(p, n))
    decreases n, 1
  {
    hide *;
    FitsParts(js, max, p, Render(n), TokenCount(n));
    SaneSuper(p);
    ValidParts(n);
    if n.Text? {
      StringAfter(p, n);
      ReadsString(js, max, n.pieces, p);
      Stepping(js, max, p, After(p, n));
    } else if n.Items? {
      ReadsVector(js, max, n.gap, n.items, p);
    } else if n.Members? {
      ReadsMap(js, max, n.gap, n.members, p);
    } else {
      PrimitiveAfter(p, n);
      AtomsAreBare(n.atom);
      ReadsPrimitive(js, max, SpellAtom(n.atom), p);
      Stepping(js, max, p, After(p, n));
    }
  }

  lemma ValidParts(n: Node)
    requires Valid(n)
    ensures n.Text? || n.Word? || (n.Items? && n == Items(n.gap, n.items)) || (n.Members? && n == Members(n.gap, n.members))
    ensures n.Word? ==> Grammatical(n.atom)
    ensures n.Text? ==> PiecesFit(n.pieces)
    ensures n.Items? ==> Gap(n.gap) && ValidItems(n.items)
    ensures n.Members? ==> Gap(n.gap) && ValidMembers(n.members)
  {
    hide Grammatical, PiecesFit, Gap;
  }

  lemma StringAfter(p: Parser, n: Node)
    requires n.Text? && -1 <= p.super < |p.toks|
    ensures Render(n) == InQuotes(n.pieces) && TokenCount(n) == 1
    ensures After(p, n) ==
      Add(p, TextKind(n.pieces), p.pos + 1, p.pos + 1 + |Spell(n.pieces)|).(pos := p.pos + |Spell(n.pieces)| + 2)
  {
    hide Spell, HasEscape;
  }

  lemma PrimitiveAfter(p: Parser, n: Node)
    requires n.Word? && -1 <= p.super < |p.toks|
    ensures TokenCount(n) == 1 && Render(n) == SpellAtom(n.atom)
    ensures After(p, n) == Add(p, Primitive, p.pos, p.pos + |SpellAtom(n.atom)|).(pos := p.pos + |SpellAtom(n.atom)|)
  {
    hide SpellAtom;
  }

  /** The parser after the opening bracket. */
  function Entered(p: Parser, kind: Kind): Parser
    requires -1 <= p.super < |p.toks|
  {
    p.(pos := p.pos + 1, super := |p.toks|, count := p.count + 1,
       toks := Bump(p.toks, p.super) + [Token(kind, p.pos, -1, 0, p.super)])
  }

  /** A bracketed text has its parts in place. */
  lemma BracketParts(js: seq<Byte>, i: nat, open: Byte, gap: seq<Byte>, body: seq<Byte>, close: Byte)
    requires HasAt(js, i, [open] + (gap + body) + [close])
    ensures i < |js| && js[i] == open && HasAt(js, i + 1, gap) && HasAt(js, i + 1 + |gap|, body)
    ensures i + 1 + |gap| + |body| < |js| && js[i + 1 + |gap| + |body|] == close
  {
    HasParts(js, i, [open] + (gap + body), [close]);
    HasParts(js, i, [open], gap + body);
    HasParts(js, i + 1, gap, body);
    HasFirst(js, i, [open]);
    HasFirst(js, i + 1 + |gap| + |body|, [close]);
  }

  /** A container whose children have been read is closed. */
  lemma Finishes(js: seq<Byte>, max: nat, p: Parser, q: Parser, kind: Kind, n: nat, rest: seq<Token>)
    requires Sane(p) && Sane(q) && (kind == Arr || kind == Object)
    requires q.toks == BumpN(Entered(p, kind).toks, |p.toks|, n) + rest && Settled(rest, |p.toks| + 1, |p.toks|)
    requires q.pos < |js| && js[q.pos] == (if kind == Object then '}' as int else ']' as int)
    ensures Comes(js, max, q, q.(pos := q.pos + 1, super := p.super,
      toks := Bump(p.toks, p.super) + ([Token(kind, p.pos, q.pos + 1, n, p.super)] + rest)))
  {
    hide Comes, Settled, Close;
    var base, k := Bump(p.toks, p.super), |p.toks|;
    var front := BumpN(Entered(p, kind).toks, k, n);
    assert front[k := front[k].(end := q.pos + 1)] == base + [Token(kind, p.pos, q.pos + 1, n, p.super)];
    Assoc(base, [Token(kind, p.pos, q.pos + 1, n, p.super)], rest);
    CloseStep(js, max, q, k, rest, front, js[q.pos]);
  }

  /** The tokenizer behind the white space after the opening bracket. */
  function Inside(p: Parser, kind: Kind, gap: seq<Byte>): Parser
    requires -1 <= p.super < |p.toks|
  {
    Entered(p, kind).(pos := p.pos + 1 + |gap|)
  }

  /** The opening bracket is read and the body may follow. */
  lemma Enters(js: seq<Byte>, max: nat, p: Parser, kind: Kind, gap: seq<Byte>, body: seq<Byte>, tokens: nat)
    requires (kind == Arr || kind == Object) && Gap(gap)
    requires Fits(js, max, p, [OpenOf(kind)] + (gap + body) + [CloseOf(kind)], 1 + tokens)
    ensures Comes(js, max, p, Inside(p, kind, gap)) && Fits(js, max, Inside(p, kind, gap), body, tokens)
    ensures Sane(Inside(p, kind, gap))
    ensures p.pos + 1 + |gap| + |body| < |js| && js[p.pos + 1 + |gap| + |body|] == CloseOf(kind)
    ensures 0 <= Inside(p, kind, gap).super == |p.toks| < |Inside(p, kind, gap).toks|
    ensures Inside(p, kind, gap).toks[|p.toks|].kind == kind
  {
    hide *;
    FitsParts(js, max, p, [OpenOf(kind)] + (gap + body) + [CloseOf(kind)], 1 + tokens);
    BracketParts(js, p.pos, OpenOf(kind), gap, body, CloseOf(kind));
    var p1 := Entered(p, kind);
    InsideIs(p, kind, gap);
    EnteredIs(js, max, p, kind);
    ComesSane(js, max, p, p1);
    SkipGap(js, max, gap, p1);
    Chain(js, max, p, p1, Inside(p, kind, gap));
    ComesSane(js, max, p1, Inside(p, kind, gap));
    ClosingDelimits(kind);
    FitsWhole(js, max, Inside(p, kind, gap), body, tokens);
  }

  lemma EnteredIs(js: seq<Byte>, max: nat, p: Parser, kind: Kind)
    requires (kind == Arr || kind == Object) && Sane(p) && p.pos < |js| && js[p.pos] == OpenOf(kind) && |p.toks| < max
    ensures Comes(js, max, p, Entered(p, kind))
  {
    OpenStep(js, max, OpenOf(kind), p);
    hide Comes, Bump;
  }

  lemma ClosingDelimits(kind: Kind)
    ensures Delimits(CloseOf(kind))
  {
  }

  lemma InsideIs(p: Parser, kind: Kind, gap: seq<Byte>)
    requires -1 <= p.super < |p.toks|
    ensures var p1 := Inside(p, kind, gap);
      && p1 == Entered(p, kind).(pos := Entered(p, kind).pos + |gap|) && p1.pos == p.pos + 1 + |gap|
      && p1.toks == Entered(p, kind).toks && p1.count == p.count + 1 && p1.super == |p.toks| && |p1.toks| == |p.toks| + 1
      && p1.toks[|p.toks|].kind == kind && Entered(p, kind).pos == p.pos + 1
  {
    hide Bump;
  }

  function OpenOf(kind: Kind): Byte { if kind == Object then '{' as int else '[' as int }

  function CloseOf(kind: Kind): Byte { if kind == Object then '}' as int else ']' as int }

  lemma SaneSuper(p: Parser)
    requires Sane(p)
    ensures -1 <= p.super < |p.toks|
  {
  }

  lemma {:induction false} ReadsVector(js: seq<Byte>, max: nat, gap: seq<Byte>, items: seq<Item>, p: Parser)
    requires Gap(gap) && ValidItems(items) && Fits(js, max, p, Render(Items(gap, items)), TokenCount(Items(gap, items)))
    ensures -1 <= p.super < |p.toks| && Comes(js, max, p, After(p, Items(gap, items)))
    decreases items, 1
  {
    hide *;
    var n := Items(gap, items);
    VectorText(gap, items);
    FitsParts(js, max, p, Render(n), TokenCount(n));
    SaneSuper(p);
    var p1 := Inside(p, Arr, gap);
    Enters(js, max, p, Arr, gap, RenderItems(items), SeqCount(items));
    ReadsSeq(js, max, items, p1);
    var rest := SeqTokens(items, p.pos + 1 + |gap|, |p.toks| + 1, |p.toks|);
    SeqSettled(items, p.pos + 1 + |gap|, |p.toks| + 1, |p.toks|);
    SeqAfter(p, gap, items);
    ComesSane(js, max, p1, AfterSeq(p1, items));
    Finishes(js, max, p, AfterSeq(p1, items), Arr, |items|, rest);
    Chain(js, max, p, p1, AfterSeq(p1, items));
    Chain(js, max, p, AfterSeq(p1, items), After(p, n));
  }

  lemma VectorText(gap: seq<Byte>, items: seq<Item>)
    ensures Render(Items(gap, items)) == [OpenOf(Arr)] + (gap + RenderItems(items)) + [CloseOf(Arr)]
    ensures CloseOf(Arr) == ']' as int && CloseOf(Object) == '}' as int
    ensures TokenCount(Items(gap, items)) == 1 + SeqCount(items)
  {
    hide RenderItems;
  }

  lemma MapText(gap: seq<Byte>, members: seq<Member>)
    ensures Render(Members(gap, members)) == [OpenOf(Object)] + (gap + RenderMembers(members)) + [CloseOf(Object)]
    ensures CloseOf(Arr) == ']' as int && CloseOf(Object) == '}' as int
    ensures TokenCount(Members(gap, members)) == 1 + MembersCount(members)
  {
    hide RenderMembers;
  }

  lemma SeqAfter(p: Parser, gap: seq<Byte>, items: seq<Item>)
    requires -1 <= p.super < |p.toks|
    ensures var p1 := Inside(p, Arr, gap);
      && p1.super == |p.toks| < |p1.toks|
      && var p2 := AfterSeq(p1, items);
        var rest := SeqTokens(items, p.pos + 1 + |gap|, |p.toks| + 1, |p.toks|);
        && p2.pos == p.pos + 1 + |gap| + |RenderItems(items)|
        && p2.toks == BumpN(Entered(p, Arr).toks, |p.toks|, |items|) + rest
        && After(p, Items(gap, items)) == p2.(pos := p2.pos + 1, super := p.super,
          toks := Bump(p.toks, p.super) + ([Token(Arr, p.pos, p2.pos + 1, |items|, p.super)] + rest))
  {
    hide SeqTokens, RenderItems, SeqCount, Bump, BumpN;
  }

  lemma ReadsItem(js: seq<Byte>, max: nat, x: Item, p: Parser, q: Parser)
    requires ValidItem(x) && Fits(js, max, p, RenderItem(x), ItemCount(x))
    requires -1 <= p.super < |p.toks|
    requires q == p.(pos := p.pos + |x.before|) && Comes(js, max, q, After(q, x.node))
    ensures Comes(js, max, p, AfterItem(p, x))
  {
    hide *;
    ItemIs(p, x);
    FitsParts(js, max, p, RenderItem(x), ItemCount(x));
    ItemParts(js, p.pos, x);
    SkipGap(js, max, x.before, p);
    var r := After(q, x.node);
    ComesSane(js, max, q, r);
    SkipGap(js, max, x.after, r);
    Chain(js, max, p, q, r);
    Chain(js, max, p, r, AfterItem(p, x));
  }

  lemma ItemIs(p: Parser, x: Item)
    requires -1 <= p.super < |p.toks| && ValidItem(x)
    ensures var q := After(p.(pos := p.pos + |x.before|), x.node);
      AfterItem(p, x) == q.(pos := q.pos + |x.after|) && q.pos == p.pos + |x.before| + |Render(x.node)|
    ensures Gap(x.before) && Gap(x.after) && Valid(x.node) && ItemCount(x) == TokenCount(x.node)
  {
    hide Gap, Valid, Render, TokensOf, TokenCount;
  }

  lemma ItemParts(js: seq<Byte>, i: nat, x: Item)
    requires HasAt(js, i, RenderItem(x))
    ensures HasAt(js, i, x.before) && HasAt(js, i + |x.before|, Render(x.node))
    ensures HasAt(js, i + |x.before| + |Render(x.node)|, x.after)
    ensures |RenderItem(x)| == |x.before| + |Render(x.node)| + |x.after|
  {
    hide HasAt, Render;
    HasParts(js, i, x.before, Render(x.node) + x.after);
    HasParts(js, i + |x.before|, Render(x.node), x.after);
  }

  /** The value of an item may stand behind the white space before it. */
  lemma NodeFits(js: seq<Byte>, max: nat, p: Parser, x: Item)
    requires ValidItem(x) && Fits(js, max, p, RenderItem(x), ItemCount(x))
    ensures Fits(js, max, p.(pos := p.pos + |x.before|), Render(x.node), TokenCount(x.node)) && Valid(x.node)
  {
    ItemParts(js, p.pos, x);
    if x.after != [] { HasFirst(js, p.pos + |x.before| + |Render(x.node)|, x.after); }
    hide HasAt, Render, Valid, TokenCount;
  }

  /** Reading one item changes the tokens the same way as counting it first. */
  lemma SeqNext(p: Parser, x: Item, items: seq<Item>)
    requires 0 <= p.super < |p.toks| && items != []
    ensures var p1 := AfterItem(p, x).(pos := AfterItem(p, x).pos + 1);
      p1.super < |p1.toks| && AfterSeq(p1, items) == AfterSeq(p, [x] + items)
  {
    var t := ItemTokens(x, p.pos, |p.toks|, p.super);
    var p1 := AfterItem(p, x).(pos := AfterItem(p, x).pos + 1);
    var k, n := p.super, |items|;
    assert ([x] + items)[1..] == items;
    ItemCounted(x, p.pos, |p.toks|, p.super);
    hide ItemTokens, RenderItem, ItemCount;
    var rest := SeqTokens(items, p1.pos, |p1.toks|, k);
    assert BumpN(Bump(p.toks, k) + t, k, n) == BumpN(p.toks, k, n + 1) + t;
    Assoc(BumpN(p.toks, k, n + 1), t, rest);
  }

  lemma {:induction false} ReadsSeq(js: seq<Byte>, max: nat, items: seq<Item>, p: Parser)
    requires ValidItems(items) && 0 <= p.super < |p.toks| && p.toks[p.super].kind == Arr
    requires Sane(p) && Fits(js, max, p, RenderItems(items), SeqCount(items))
    ensures Comes(js, max, p, AfterSeq(p, items))
    decreases items, 0
  {
    hide *;
    if items == [] {
      NoElement(js, max, p);
    } else {
      var x := items[0];
      var inner := p.(pos := p.pos + |x.before|);
      ValidTail(items);
      FirstFits(js, max, p, items);
      NodeFits(js, max, p, x);
      Reads(js, max, x.node, inner);
      ReadsItem(js, max, x, p, inner);
      if |items| == 1 {
        LastElement(p, items);
      } else {
        var p1 := AfterItem(p, x);
        var p2 := p1.(pos := p1.pos + 1);
        ComesSane(js, max, p, p1);
        NextElement(js, max, p, items);
        ReadsSeq(js, max, items[1..], p2);
        SeqNext(p, x, items[1..]);
        assert [x] + items[1..] == items;
        Chain(js, max, p, p1, p2);
        Chain(js, max, p, p2, AfterSeq(p, items));
      }
    }
  }

  lemma ValidTail(items: seq<Item>)
    requires ValidItems(items) && items != []
    ensures ValidItem(items[0]) && ValidItems(items[1..])
  {
    hide ValidItem;
  }

  lemma NoElement(js: seq<Byte>, max: nat, p: Parser)
    requires Sane(p) && 0 <= p.super < |p.toks|
    ensures Comes(js, max, p, AfterSeq(p, []))
  {
    NoSuffix(BumpN(p.toks, p.super, 0));
    assert AfterSeq(p, []) == p;
  }

  lemma FirstFits(js: seq<Byte>, max: nat, p: Parser, items: seq<Item>)
    requires Fits(js, max, p, RenderItems(items), SeqCount(items)) && items != []
    ensures Fits(js, max, p, RenderItem(items[0]), ItemCount(items[0]))
  {
    hide *;
    if |items| == 1 {
      OneElement(items);
    } else {
      SeqParts(js, max, p, items);
    }
  }

  lemma OneElement(items: seq<Item>)
    requires |items| == 1
    ensures RenderItems(items) == RenderItem(items[0]) && SeqCount(items) == ItemCount(items[0])
  {
    assert items[1..] == [];
    assert SeqCount(items[1..]) == 0;
    NoSuffix(RenderItem(items[0]));
  }

  lemma OneElementTokens(items: seq<Item>, off: nat, idx: nat, parent: int)
    requires |items| == 1
    ensures SeqTokens(items, off, idx, parent) == ItemTokens(items[0], off, idx, parent)
  {
    var t := ItemTokens(items[0], off, idx, parent);
    assert items[1..] == [];
    assert SeqTokens(items[1..], off + |RenderItem(items[0])| + 1, idx + |t|, parent) == [];
    NoSuffix(t);
  }

  lemma SeveralElements(items: seq<Item>)
    requires |items| > 1
    ensures RenderItems(items) == RenderItem(items[0]) + ([COMMA] + RenderItems(items[1..]))
  {
    hide RenderItem;
  }

  lemma SeqParts(js: seq<Byte>, max: nat, p: Parser, items: seq<Item>)
    requires Fits(js, max, p, RenderItems(items), SeqCount(items)) && |items| > 1
    ensures Fits(js, max, p, RenderItem(items[0]), ItemCount(items[0]))
    ensures var next := p.pos + |RenderItem(items[0])| + 1;
      && next <= |js| && js[next - 1] == COMMA && HasAt(js, next, RenderItems(items[1..]))
      && next + |RenderItems(items[1..])| == p.pos + |RenderItems(items)|
  {
    hide RenderItem, RenderItems, HasAt, ItemCount;
    var text, others := RenderItem(items[0]), RenderItems(items[1..]);
    SeveralElements(items);
    ManyParts(js, p.pos, text, others);
    HasRoom(js, p.pos + |text| + 1, others);
  }

  /** Behind an item and its comma the next one may follow. */
  lemma NextElement(js: seq<Byte>, max: nat, p: Parser, items: seq<Item>)
    requires Fits(js, max, p, RenderItems(items), SeqCount(items)) && |items| > 1
    requires 0 <= p.super < |p.toks| && p.toks[p.super].kind == Arr && Sane(AfterItem(p, items[0]))
    ensures var p1 := AfterItem(p, items[0]);
      var p2 := p1.(pos := p1.pos + 1);
      && Comes(js, max, p1, p2) && Sane(p2) && Fits(js, max, p2, RenderItems(items[1..]), SeqCount(items[1..]))
      && 0 <= p2.super < |p2.toks| && p2.toks[p2.super].kind == Arr
  {
    hide *;
    var q := AfterItem(p, items[0]);
    FitsParts(js, max, p, RenderItems(items), SeqCount(items));
    SeqParts(js, max, p, items);
    SeqCountIs(items);
    AfterFields(p, items[0], p.super);
    CommaInArray(js, max, q);
    ComesSane(js, max, q, q.(pos := q.pos + 1));
    FitsWhole(js, max, q.(pos := q.pos + 1), RenderItems(items[1..]), SeqCount(items[1..]));
  }

  lemma SeqCountIs(items: seq<Item>)
    requires items != []
    ensures SeqCount(items) == ItemCount(items[0]) + SeqCount(items[1..])
  {
  }

  lemma ComesSane(js: seq<Byte>, max: nat, p: Parser, q: Parser)
    requires Comes(js, max, p, q)
    ensures Sane(q)
  {
  }

  lemma AfterFields(p: Parser, x: Item, i: nat)
    requires -1 <= p.super < |p.toks| && i < |p.toks|
    ensures var q := AfterItem(p, x);
      && q.pos == p.pos + |RenderItem(x)| && q.super == p.super && |q.toks| == |p.toks| + ItemCount(x)
      && q.toks[i].kind == p.toks[i].kind && q.toks[i].parent == p.toks[i].parent
  {
    ItemCounted(x, p.pos, |p.toks|, p.super);
    hide RenderItem, ItemTokens;
  }

  lemma LastElement(p: Parser, items: seq<Item>)
    requires 0 <= p.super < |p.toks| && |items| == 1
    ensures AfterSeq(p, items) == AfterItem(p, items[0])
  {
    OneElement(items);
    OneElementTokens(items, p.pos, |p.toks|, p.super);
    hide RenderItems, RenderItem, SeqCount, ItemCount, SeqTokens, ItemTokens;
  }

  // ---------------------------------------------------------------- reading a map

  /** The tokenizer after a member: the name is the parent of whatever comes next. */
  function AfterPair(p: Parser, m: Member): Parser
    requires 0 <= p.super < |p.toks|
  {
    p.(pos := p.pos + |RenderMember(m)|, super := |p.toks|,
       toks := BumpN(p.toks, p.super, 1) + PairTokens(m, p.pos, |p.toks|, p.super),
       count := p.count + PairCount(m))
  }

  /** The tokenizer after a name and its colon. */
  function AfterName(p: Parser, m: Member): Parser
    requires 0 <= p.super < |p.toks|
  {
    p.(pos := p.pos + NameLength(m), super := |p.toks|, count := p.count + 1,
       toks := Bump(p.toks, p.super) + [NameToken(m, p.pos, 0, p.super)])
  }

  lemma ReadsName(js: seq<Byte>, max: nat, m: Member, p: Parser)
    requires ValidMember(m) && 0 <= p.super < |p.toks|
    requires Fits(js, max, p, RenderMember(m), PairCount(m))
    ensures Comes(js, max, p, AfterName(p, m))
    ensures Fits(js, max, AfterName(p, m), RenderItem(m.item), ItemCount(m.item))
  {
    hide *;
    FitsParts(js, max, p, RenderMember(m), PairCount(m));
    MemberParts(js, p.pos, m);
    MemberIsValid(m);
    PairCountIs(m);
    var p0 := p.(pos := p.pos + |m.before|);
    var n := |Spell(m.name)|;
    var p1 := Add(p0, TextKind(m.name), p0.pos + 1, p0.pos + 1 + n).(pos := p0.pos + n + 2);
    var p2 := p1.(pos := p1.pos + |m.behind|);
    var p3 := AfterName(p, m);
    NameSteps(p, m);
    SkipGap(js, max, m.before, p);
    ComesSane(js, max, p, p0);
    ReadsString(js, max, m.name, p0);
    Stepping(js, max, p0, p1);
    ComesSane(js, max, p0, p1);
    SkipGap(js, max, m.behind, p1);
    ComesSane(js, max, p1, p2);
    ColonStep(js, max, p2);
    Chain(js, max, p, p0, p1);
    Chain(js, max, p, p1, p2);
    Chain(js, max, p, p2, p3);
    ComesSane(js, max, p, p3);
    FitsWhole(js, max, p3, RenderItem(m.item), ItemCount(m.item));
  }

  lemma MemberIsValid(m: Member)
    requires ValidMember(m)
    ensures Gap(m.before) && PiecesFit(m.name) && Gap(m.behind) && ValidItem(m.item)
  {
    hide Gap, PiecesFit, ValidItem;
  }

  lemma FitsParts(js: seq<Byte>, max: nat, p: Parser, text: seq<Byte>, tokens: nat)
    requires Fits(js, max, p, text, tokens)
    ensures NUL !in js && HasAt(js, p.pos, text) && Sane(p) && |p.toks| + tokens <= max
    ensures p.pos + |text| <= |js| && -1 <= p.super < |p.toks|
    ensures p.pos + |text| == |js| || Delimits(js[p.pos + |text|])
  {
  }

  lemma FitsWhole(js: seq<Byte>, max: nat, p: Parser, text: seq<Byte>, tokens: nat)
    requires NUL !in js && HasAt(js, p.pos, text) && Sane(p) && |p.toks| + tokens <= max
    requires p.pos + |text| <= |js| && (p.pos + |text| == |js| || Delimits(js[p.pos + |text|]))
    ensures Fits(js, max, p, text, tokens)
  {
  }

  lemma PairCountIs(m: Member)
    ensures PairCount(m) == 1 + ItemCount(m.item)
  {
  }

  lemma NameSteps(p: Parser, m: Member)
    requires 0 <= p.super < |p.toks|
    ensures var p0 := p.(pos := p.pos + |m.before|);
      var n := |Spell(m.name)|;
      var p1 := Add(p0, TextKind(m.name), p0.pos + 1, p0.pos + 1 + n).(pos := p0.pos + n + 2);
      var p2 := p1.(pos := p1.pos + |m.behind|);
      AfterName(p, m) == p2.(pos := p2.pos + 1, super := |p2.toks| - 1)
    ensures |AfterName(p, m).toks| == |p.toks| + 1 && AfterName(p, m).pos == p.pos + NameLength(m)
    ensures |InQuotes(m.name)| == |Spell(m.name)| + 2
    ensures NameLength(m) == |m.before| + |Spell(m.name)| + 2 + |m.behind| + 1
  {
    hide Spell, HasEscape;
  }

  /** Where the name, the colon and the value of a member are. */
  lemma MemberParts(js: seq<Byte>, i: nat, m: Member)
    requires HasAt(js, i, RenderMember(m))
    ensures HasAt(js, i, m.before) && HasAt(js, i + |m.before|, InQuotes(m.name))
    ensures HasAt(js, i + |m.before| + |InQuotes(m.name)|, m.behind)
    ensures 0 < i + NameLength(m) <= |js| && js[i + NameLength(m) - 1] == COLON
    ensures HasAt(js, i + NameLength(m), RenderItem(m.item))
    ensures |RenderMember(m)| == NameLength(m) + |RenderItem(m.item)|
  {
    hide RenderItem, HasAt, InQuotes;
    var name, value := InQuotes(m.name), [COLON] + RenderItem(m.item);
    HasParts(js, i, m.before, name + (m.behind + value));
    HasParts(js, i + |m.before|, name, m.behind + value);
    HasParts(js, i + |m.before| + |name|, m.behind, value);
    HasParts(js, i + |m.before| + |name| + |m.behind|, [COLON], RenderItem(m.item));
    HasFirst(js, i + |m.before| + |name| + |m.behind|, [COLON]);
  }

  lemma PairAfter(p: Parser, m: Member)
    requires 0 <= p.super < |p.toks|
    ensures AfterItem(AfterName(p, m), m.item) == AfterPair(p, m)
  {
    hide RenderItem, ItemTokens, Spell, HasEscape, ItemCount, NameLength;
    var q := AfterName(p, m);
    var base, k := Bump(p.toks, p.super), |p.toks|;
    var t := ItemTokens(m.item, q.pos, k + 1, k);
    MemberLength(m);
    hide RenderMember, NameToken;
    NameTokenSizes(m, p.pos, p.super);
    assert Bump(q.toks, k) == base + [NameToken(m, p.pos, 1, p.super)];
    Assoc(base, [NameToken(m, p.pos, 1, p.super)], t);
  }

  lemma NameTokenSizes(m: Member, off: nat, parent: int)
    ensures NameToken(m, off, 1, parent) == NameToken(m, off, 0, parent).(size := 1)
    ensures NameToken(m, off, 0, parent).size == 0
  {
    hide Spell, HasEscape;
  }

  lemma MemberLength(m: Member)
    ensures |RenderMember(m)| == NameLength(m) + |RenderItem(m.item)|
  {
    hide RenderItem, InQuotes;
  }

  lemma {:induction false} ReadsPair(js: seq<Byte>, max: nat, m: Member, p: Parser)
    requires ValidMember(m) && 0 <= p.super < |p.toks|
    requires Fits(js, max, p, RenderMember(m), PairCount(m))
    ensures Comes(js, max, p, AfterPair(p, m))
    decreases m, 3
  {
    hide *;
    var q := AfterName(p, m);
    var inner := q.(pos := q.pos + |m.item.before|);
    MemberIsValid(m);
    ReadsName(js, max, m, p);
    ComesSane(js, max, p, q);
    SaneSuper(q);
    NodeFits(js, max, q, m.item);
    Reads(js, max, m.item.node, inner);
    ReadsItem(js, max, m.item, q, inner);
    PairAfter(p, m);
    Chain(js, max, p, q, AfterPair(p, m));
  }

  /** The parser has read the members; `super` is its own business. */
  ghost predicate HasMembers(p: Parser, members: seq<Member>, q: Parser)
    requires 0 <= p.super < |p.toks|
  {
    && q.pos == p.pos + |RenderMembers(members)| && q.count == p.count + MembersCount(members)
    && q.toks == BumpN(p.toks, p.super, |members|) + MembersTokens(members, p.pos, |p.toks|, p.super)
  }

  lemma {:induction false} ReadsMembers(js: seq<Byte>, max: nat, members: seq<Member>, p: Parser) returns (q: Parser)
    requires ValidMembers(members) && 0 <= p.super < |p.toks|
    requires Fits(js, max, p, RenderMembers(members), MembersCount(members))
    ensures Comes(js, max, p, q) && HasMembers(p, members, q)
    decreases members, 0
  {
    if members == [] {
      q := p;
      NoSuffix(BumpN(p.toks, p.super, 0));
    } else {
      ValidMembersTail(members);
      MembersParts(js, max, p, members);
      ReadsPair(js, max, members[0], p);
      if |members| == 1 {
        q := AfterPair(p, members[0]);
        LastMember(p, members);
      } else {
        var p1 := AfterPair(p, members[0]);
        var p2 := p1.(pos := p1.pos + 1, super := p.super);
        NextMember(js, max, p, members);
        q := ReadsMembers(js, max, members[1..], p2);
        MembersNext(p, members, q);
        hide *;
        Chain(js, max, p, p1, p2);
        Chain(js, max, p, p2, q);
      }
    }
  }

  lemma ValidMembersTail(members: seq<Member>)
    requires ValidMembers(members) && members != []
    ensures ValidMember(members[0]) && ValidMembers(members[1..])
  {
    hide ValidMember;
  }

  lemma SeveralMembers(members: seq<Member>)
    requires members != []
    ensures |members| > 1 ==> RenderMembers(members) == RenderMember(members[0]) + ([COMMA] + RenderMembers(members[1..]))
    ensures |members| == 1 ==> RenderMembers(members) == RenderMember(members[0])
  {
    hide RenderMember;
    NoSuffix(RenderMember(members[0]));
  }

  lemma MembersParts(js: seq<Byte>, max: nat, p: Parser, members: seq<Member>)
    requires members != [] && Fits(js, max, p, RenderMembers(members), MembersCount(members))
    ensures Fits(js, max, p, RenderMember(members[0]), PairCount(members[0]))
    ensures |members| > 1 ==> var next := p.pos + |RenderMember(members[0])| + 1;
      && next <= |js| && js[next - 1] == COMMA && HasAt(js, next, RenderMembers(members[1..]))
      && next + |RenderMembers(members[1..])| == p.pos + |RenderMembers(members)|
  {
    hide *;
    var one := RenderMember(members[0]);
    FitsParts(js, max, p, RenderMembers(members), MembersCount(members));
    SeveralMembers(members);
    MembersCountIs(members);
    if |members| > 1 {
      ManyParts(js, p.pos, one, RenderMembers(members[1..]));
      CommaDelimits();
    }
    FitsWhole(js, max, p, one, PairCount(members[0]));
  }

  lemma MembersCountIs(members: seq<Member>)
    requires members != []
    ensures MembersCount(members) == PairCount(members[0]) + MembersCount(members[1..])
  {
  }

  lemma CommaDelimits()
    ensures Delimits(COMMA)
  {
  }

  lemma ManyParts(js: seq<Byte>, i: nat, one: seq<Byte>, others: seq<Byte>)
    requires HasAt(js, i, one + ([COMMA] + others))
    ensures HasAt(js, i, one) && i + |one| + 1 <= |js| && js[i + |one|] == COMMA
    ensures HasAt(js, i + |one| + 1, others)
  {
    hide HasAt;
    HasParts(js, i, one, [COMMA] + others);
    HasParts(js, i + |one|, [COMMA], others);
    HasFirst(js, i + |one|, [COMMA]);
    HasRoom(js, i + |one| + 1, others);
  }

  lemma LastMember(p: Parser, members: seq<Member>)
    requires |members| == 1 && 0 <= p.super < |p.toks|
    ensures HasMembers(p, members, AfterPair(p, members[0]))
  {
    SeveralMembers(members);
    assert members[1..] == [];
    var one, t := RenderMember(members[0]), PairTokens(members[0], p.pos, |p.toks|, p.super);
    NoSuffix(t);
    assert MembersCount(members) == PairCount(members[0]);
    assert MembersTokens(members, p.pos, |p.toks|, p.super) == t + MembersTokens(members[1..], p.pos + |one| + 1, |p.toks| + |t|, p.super);
    assert MembersTokens(members, p.pos, |p.toks|, p.super) == t;
    hide RenderMember, PairTokens, RenderMembers, MembersTokens, PairCount, MembersCount;
  }

  lemma PairFields(p: Parser, m: Member)
    requires 0 <= p.super < |p.toks|
    ensures var q := AfterPair(p, m);
      && q.pos == p.pos + |RenderMember(m)| && |q.toks| == |p.toks| + PairCount(m) && q.super == |p.toks| < |q.toks|
      && q.toks[q.super].kind in {Plain, Escaped} && q.toks[q.super].parent == p.super
  {
    PairCounted(m, p.pos, |p.toks|, p.super);
    hide RenderMember, ItemTokens, PairCount, HasEscape;
  }

  lemma NextMember(js: seq<Byte>, max: nat, p: Parser, members: seq<Member>)
    requires |members| > 1 && Fits(js, max, p, RenderMembers(members), MembersCount(members))
    requires 0 <= p.super < |p.toks| && Sane(AfterPair(p, members[0]))
    ensures var p1 := AfterPair(p, members[0]);
      var p2 := p1.(pos := p1.pos + 1, super := p.super);
      && Comes(js, max, p1, p2) && Fits(js, max, p2, RenderMembers(members[1..]), MembersCount(members[1..]))
      && p.super < |p2.toks|
  {
    hide *;
    var p1 := AfterPair(p, members[0]);
    var p2 := p1.(pos := p1.pos + 1, super := p.super);
    FitsParts(js, max, p, RenderMembers(members), MembersCount(members));
    MembersParts(js, max, p, members);
    MembersCountIs(members);
    PairFields(p, members[0]);
    CommaAfterKey(js, max, p1);
    ComesSane(js, max, p1, p2);
    FitsWhole(js, max, p2, RenderMembers(members[1..]), MembersCount(members[1..]));
  }

  lemma MembersNext(p: Parser, members: seq<Member>, q: Parser)
    requires |members| > 1 && 0 <= p.super < |p.toks|
    requires var p1 := AfterPair(p, members[0]);
      p.super < |p1.toks| && HasMembers(p1.(pos := p1.pos + 1, super := p.super), members[1..], q)
    ensures HasMembers(p, members, q)
  {
    hide *;
    var p1 := AfterPair(p, members[0]);
    var k, n, t := p.super, |members| - 1, PairTokens(members[0], p.pos, |p.toks|, p.super);
    var rest := MembersTokens(members[1..], p.pos + |RenderMember(members[0])| + 1, |p.toks| + |t|, k);
    AfterPairIs(p, members[0]);
    MembersAre(p1.(pos := p1.pos + 1, super := p.super), members[1..], q);
    MembersTokensIs(members, p.pos, |p.toks|, k);
    MembersCountIs(members);
    SeveralMembers(members);
    BumpTwice(p.toks, k, n, t);
    Assoc(BumpN(p.toks, k, n + 1), t, rest);
    MembersAre(p, members, q);
  }

  lemma AfterPairIs(p: Parser, m: Member)
    requires 0 <= p.super < |p.toks|
    ensures var q := AfterPair(p, m);
      && q.pos == p.pos + |RenderMember(m)| && q.super == |p.toks| && q.count == p.count + PairCount(m)
      && q.toks == BumpN(p.toks, p.super, 1) + PairTokens(m, p.pos, |p.toks|, p.super)
  {
    hide PairTokens, RenderMember, PairCount;
  }

  lemma MembersAre(p: Parser, members: seq<Member>, q: Parser)
    requires 0 <= p.super < |p.toks|
    ensures HasMembers(p, members, q) <==>
      q.pos == p.pos + |RenderMembers(members)| && q.count == p.count + MembersCount(members) &&
      q.toks == BumpN(p.toks, p.super, |members|) + MembersTokens(members, p.pos, |p.toks|, p.super)
  {
    hide MembersTokens, RenderMembers, MembersCount;
  }

  lemma MembersTokensIs(members: seq<Member>, off: nat, idx: nat, parent: int)
    requires members != []
    ensures var t := PairTokens(members[0], off, idx, parent);
      MembersTokens(members, off, idx, parent) ==
        t + MembersTokens(members[1..], off + |RenderMember(members[0])| + 1, idx + |t|, parent)
  {
    hide PairTokens, RenderMember;
  }

  lemma BumpTwice(toks: seq<Token>, k: nat, n: nat, t: seq<Token>)
    requires k < |toks|
    ensures BumpN(BumpN(toks, k, 1) + t, k, n) == BumpN(toks, k, n + 1) + t
  {
  }

  lemma MapAfter(p: Parser, gap: seq<Byte>, members: seq<Member>, q: Parser)
    requires -1 <= p.super < |p.toks| && HasMembers(Inside(p, Object, gap), members, q)
    ensures var rest := MembersTokens(members, p.pos + 1 + |gap|, |p.toks| + 1, |p.toks|);
      && q.pos == p.pos + 1 + |gap| + |RenderMembers(members)|
      && q.toks == BumpN(Entered(p, Object).toks, |p.toks|, |members|) + rest
      && After(p, Members(gap, members)) == q.(pos := q.pos + 1, super := p.super,
        toks := Bump(p.toks, p.super) + ([Token(Object, p.pos, q.pos + 1, |members|, p.super)] + rest))
  {
    hide *;
    InsideIs(p, Object, gap);
    MembersAre(Inside(p, Object, gap), members, q);
    AfterMap(p, gap, members);
  }

  lemma AfterMap(p: Parser, gap: seq<Byte>, members: seq<Member>)
    requires -1 <= p.super < |p.toks|
    ensures After(p, Members(gap, members)) == Parser(
      p.pos + 2 + |gap| + |RenderMembers(members)|,
      Bump(p.toks, p.super) +
        ([Token(Object, p.pos, p.pos + 2 + |gap| + |RenderMembers(members)|, |members|, p.super)] +
         MembersTokens(members, p.pos + 1 + |gap|, |p.toks| + 1, |p.toks|)),
      p.super, p.count + 1 + MembersCount(members))
  {
    hide *;
    AfterIs(p, Members(gap, members));
    MapText(gap, members);
    MapTokens(gap, members, p.pos, |p.toks|, p.super);
  }

  lemma AfterIs(p: Parser, n: Node)
    requires -1 <= p.super < |p.toks|
    ensures After(p, n) == Parser(p.pos + |Render(n)|, Bump(p.toks, p.super) + TokensOf(n, p.pos, |p.toks|, p.super),
                                  p.super, p.count + TokenCount(n))
  {
    hide Render, TokensOf, TokenCount, Bump;
  }

  lemma MapTokens(gap: seq<Byte>, members: seq<Member>, off: nat, idx: nat, parent: int)
    ensures var n := Members(gap, members);
      TokensOf(n, off, idx, parent) ==
        [Token(Object, off, off + |Render(n)|, |members|, parent)] + MembersTokens(members, off + 1 + |gap|, idx + 1, idx)
  {
    hide Render, MembersTokens;
  }

  lemma {:induction false} ReadsMap(js: seq<Byte>, max: nat, gap: seq<Byte>, members: seq<Member>, p: Parser)
    requires Gap(gap) && ValidMembers(members)
    requires Fits(js, max, p, Render(Members(gap, members)), TokenCount(Members(gap, members)))
    ensures -1 <= p.super < |p.toks| && Comes(js, max, p, After(p, Members(gap, members)))
    decreases members, 1
  {
    hide *;
    var n := Members(gap, members);
    MapText(gap, members);
    FitsParts(js, max, p, Render(n), TokenCount(n));
    SaneSuper(p);
    var p1 := Inside(p, Object, gap);
    Enters(js, max, p, Object, gap, RenderMembers(members), MembersCount(members));
    var q := ReadsMembers(js, max, members, p1);
    var rest := MembersTokens(members, p.pos + 1 + |gap|, |p.toks| + 1, |p.toks|);
    MembersSettled(members, p.pos + 1 + |gap|, |p.toks| + 1, |p.toks|);
    MapAfter(p, gap, members, q);
    ComesSane(js, max, p1, q);
    Finishes(js, max, p, q, Object, |members|, rest);
    Chain(js, max, p, p1, q);
    Chain(js, max, p, q, After(p, n));
  }
}
