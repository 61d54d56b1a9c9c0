// The documents that the XML parser takes: the grammar of XML 1.0 with what the parser leaves out of it and what it
// allows beyond it.
module XmlTaken {
  import opened Bytes
  import opened CLibrary
  import opened Options
  import opened Sequences
  import opened XmlStates
  import opened XmlDocuments

  /** No end of a string; carriage returns have become line feeds. */
  predicate Clean(b: Byte) { b != 0 && b != 0x0D }

  predicate Cleans(s: seq<Byte>) { forall i :: 0 <= i < |s| ==> Clean(s[i]) }

  /** Characters as the parser has them: not the last surrogate, nor the first of the private use area. */
  predicate TakenCharacter(c: nat) {
    0 < c <= 0x10FFFF && c != 0xFFFE && c != 0xFFFF && !(0xDFFF <= c <= 0xE7FD)
  }

  predicate TakenReference(r: Reference) {
    SpelledOut(r) && |ReferenceName(r)| <= 7 && TakenCharacter(CodeOf(r))
  }

  predicate SpelledOut(r: Reference) {
    match r
    case Decimal(digits) => digits != [] && forall i :: 0 <= i < |digits| ==> Digit(digits[i])
    case Hexadecimal(digits) => digits != [] && forall i :: 0 <= i < |digits| ==> HexDigitOf(digits[i])
    case _ => true
  }

  predicate TakenPiece(p: Piece) {
    match p
    case Plain(b) => Clean(b) && b != 0x3C && b != 0x26
    case Refer(r) => TakenReference(r)
  }

  predicate TakenValue(p: Piece, q: Quote) {
    TakenPiece(p) && (p.Plain? ==> p.b != QuoteMark(q))
  }

  predicate TakenValues(ps: seq<Piece>, q: Quote) { forall i :: 0 <= i < |ps| ==> TakenValue(ps[i], q) }

  predicate TakenAttribute(a: Attribute) {
    && a.space != [] && Blanks(a.space) && IsNameOf(a.name) && Blanks(a.left) && Blanks(a.right) && TakenValues(a.value, a.quote)
  }

  predicate TakenAttributes(attributes: seq<Attribute>) {
    forall i :: 0 <= i < |attributes| ==> TakenAttribute(attributes[i])
  }

  predicate TakenComment(s: seq<Byte>) {
    Cleans(s) && Never(s, 0x2D, 0x2D) && (s != [] ==> s[|s| - 1] != 0x2D)
  }

  predicate TakenCData(s: seq<Byte>) {
    Cleans(s) && NeverThree(s, 0x5D, 0x5D, 0x3E)
  }

  /** A question mark takes the byte behind it along, which is not ">". */
  predicate Pairs(s: seq<Byte>) {
    s == [] || (if s[0] == 0x3F then |s| > 1 && s[1] != 0x3E && Pairs(s[2..]) else Pairs(s[1..]))
  }

  predicate TakenInstruction(pi: Instruction) {
    && IsNameOf(pi.target) && !NamesXml(pi.target)
    && |pi.separator| <= 1 && Blanks(pi.separator) && (pi.separator == [] ==> pi.data == [])
    && Cleans(pi.data) && Pairs(pi.data)
  }

  predicate TakenNode(n: Node)
    decreases n, 1
  {
    match n
    case Character(p) => TakenPiece(p)
    case CData(bytes) => TakenCData(bytes)
    case Note(bytes) => TakenComment(bytes)
    case Process(pi) => TakenInstruction(pi)
    case Empty(name, attributes, space) => IsNameOf(name) && TakenAttributes(attributes) && Blanks(space)
    case Element(name, attributes, space, content, last) =>
      IsNameOf(name) && TakenAttributes(attributes) && Blanks(space) && TakenContent(content) && Blanks(last)
  }

  predicate TakenContent(nodes: seq<Node>)
    decreases nodes, 0
  {
    nodes != [] ==> TakenNode(nodes[0]) && TakenContent(nodes[1..])
  }

  predicate TakenLiteral(q: Quote, s: seq<Byte>) {
    Cleans(s) && QuoteMark(q) !in s
  }

  predicate TakenOther(b: Byte) { Clean(b) && b != 0x3E && b != 0x22 && b != 0x27 }

  predicate TakenMarkupPart(p: MarkupPart) {
    match p
    case MarkupOther(b) => TakenOther(b)
    case MarkupLiteral(q, bytes) => TakenLiteral(q, bytes)
  }

  predicate TakenMarkup(parts: seq<MarkupPart>) { forall i :: 0 <= i < |parts| ==> TakenMarkupPart(parts[i]) }

  /** Behind "<!" stands any byte but a dash. */
  predicate TakenDoctypePart(d: DoctypePart) {
    match d
    case Other(b) => TakenOther(b) && b != 0x3C
    case Literal(q, bytes) => TakenLiteral(q, bytes)
    case Markup(first, parts) => Clean(first) && first != 0x2D && TakenMarkup(parts)
    case DoctypeRemark(bytes) => TakenComment(bytes)
    case DoctypeOrder(pi) => TakenInstruction(pi)
  }

  predicate TakenDoctype(parts: seq<DoctypePart>) { forall i :: 0 <= i < |parts| ==> TakenDoctypePart(parts[i]) }

  predicate TakenMisc(x: Misc) {
    match x
    case Space(b) => Blanks([b])
    case Remark(bytes) => TakenComment(bytes)
    case Order(pi) => TakenInstruction(pi)
    case Doctype(parts) => TakenDoctype(parts)
  }

  predicate TakenMiscs(xs: seq<Misc>) { forall i :: 0 <= i < |xs| ==> TakenMisc(xs[i]) }

  /** There may be white space in front of the declaration, any number of document types, and one white space in the end
      tag of the root instead of its ">". */
  predicate TakenDocument(d: Document) {
    && Blanks(d.lead) && (d.declaration.Some? ==> GoodDeclaration(d.declaration.value))
    && TakenMiscs(d.prolog)
    && (d.root.Empty? || d.root.Element?) && TakenNode(d.root)
    && (if d.cut then d.root.Element? && |d.root.last| == 1 else d.root.Element? ==> d.root.last == [])
    && TakenMiscs(d.after) && NoDoctype(d.after)
  }

  // ---------------------------------------------------------------- known documents of the standard are taken

  lemma CharsAreClean(s: seq<Byte>)
    requires Chars(s)
    ensures Cleans(s)
  {
  }

  lemma ReferenceTaken(r: Reference)
    requires Referable(r)
    ensures SpelledOut(r) && (TakenReference(r) <==> ReferenceKnown(r))
  {
    hide NumberOf;
  }

  lemma PieceTaken(p: Piece)
    requires TextPiece(p)
    ensures TakenPiece(p) <==> PieceKnown(p)
  {
    hide Referable, ReferenceKnown, TakenReference;
    if p.Refer? { ReferenceTaken(p.r); }
  }

  lemma ValuesTaken(ps: seq<Piece>, q: Quote)
    requires ValuePieces(ps, q)
    ensures TakenValues(ps, q) <==> PiecesKnown(ps)
  {
    hide TextPiece, TakenPiece, PieceKnown;
    forall i | 0 <= i < |ps|
      ensures TakenValue(ps[i], q) <==> PieceKnown(ps[i])
    {
      assert ValuePiece(ps[i], q);
      PieceTaken(ps[i]);
    }
  }

  lemma AttributesTaken(attributes: seq<Attribute>)
    requires GoodAttributes(attributes)
    ensures TakenAttributes(attributes) <==> AttributesKnown(attributes)
  {
    hide Blanks, IsNameOf, ValuePieces, TakenValues, PiecesKnown;
    forall i | 0 <= i < |attributes|
      ensures TakenAttribute(attributes[i]) <==> PiecesKnown(attributes[i].value)
    {
      assert GoodAttribute(attributes[i]);
      ValuesTaken(attributes[i].value, attributes[i].quote);
    }
  }

  lemma NeverBehind(s: seq<Byte>, k: nat)
    requires k <= |s| && Never(s, 0x3F, 0x3E)
    ensures Never(s[k..], 0x3F, 0x3E)
  {
    forall i | 0 <= i < |s[k..]| - 1
      ensures !(s[k..][i] == 0x3F && s[k..][i + 1] == 0x3E)
    {
      assert s[k..][i] == s[k + i] && s[k..][i + 1] == s[k + i + 1];
    }
  }

  lemma {:induction false} QuestionsBehind(a: seq<Byte>, t: seq<Byte>)
    ensures Questions(t) <= |t|
    ensures Questions(a + t) == if Questions(t) == |t| then |t| + Questions(a) else Questions(t)
    decreases |t|
  {
    if t == [] {
      NoSuffix(a);
    } else {
      assert (a + t)[..|a + t| - 1] == a + t[..|t| - 1];
      QuestionsBehind(a, t[..|t| - 1]);
    }
  }

  /** What stands in front of the rest of the data and how many question marks that adds. */
  lemma OneMore(c: Byte, s: seq<Byte>)
    requires c != 0x3F
    ensures Questions([c] + s) == Questions(s)
  {
    assert [c][..0] == [];
    QuestionsBehind([c], s);
  }

  lemma TwoMore(c: Byte, s: seq<Byte>)
    ensures Questions([0x3F, c] + s) % 2 == Questions(s) % 2
  {
    assert [0x3F, c][..1] == [0x3F] && [0x3F][..0] == [];
    QuestionsBehind([0x3F, c], s);
  }

  /** Where "?>" is nowhere in the data: they are pairs if and only if the question marks at their end are even in number. */
  lemma {:induction false} EvenIsPairs(s: seq<Byte>)
    requires Never(s, 0x3F, 0x3E)
    ensures Pairs(s) <==> Questions(s) % 2 == 0
    decreases |s|
  {
    hide Never;
    if s == [] {
    } else if s[0] != 0x3F {
      NeverBehind(s, 1);
      EvenIsPairs(s[1..]);
      OneMore(s[0], s[1..]);
      assert s == [s[0]] + s[1..];
    } else if |s| == 1 {
      assert s[..0] == [];
    } else {
      NeverBehind(s, 2);
      EvenIsPairs(s[2..]);
      TwoMore(s[1], s[2..]);
      assert s == [0x3F, s[1]] + s[2..];
      NeverFirst(s);
    }
  }

  lemma NeverFirst(s: seq<Byte>)
    requires Never(s, 0x3F, 0x3E) && |s| > 1 && s[0] == 0x3F
    ensures s[1] != 0x3E
  {
  }

  lemma InstructionTaken(pi: Instruction)
    requires GoodInstruction(pi)
    ensures TakenInstruction(pi) <==> InstructionCloses(pi)
  {
    hide IsNameOf, NamesXml, Blanks, Questions, Pairs;
    EvenIsPairs(pi.data);
  }

  lemma CommentTaken(s: seq<Byte>)
    requires GoodComment(s)
    ensures TakenComment(s)
  {
  }

  lemma CDataTaken(s: seq<Byte>)
    requires GoodCData(s)
    ensures TakenCData(s)
  {
  }

  lemma {:induction false} NodeTaken(n: Node)
    requires GoodNode(n)
    ensures TakenNode(n) <==> Known(n)
    decreases n, 1
  {
    hide TextPiece, TakenPiece, PieceKnown, GoodCData, TakenCData, GoodComment, TakenComment, GoodInstruction, TakenInstruction;
    hide InstructionCloses, IsNameOf, Blanks, GoodAttributes, TakenAttributes, AttributesKnown;
    match n
    case Character(p) => PieceTaken(p);
    case CData(bytes) => CDataTaken(bytes);
    case Note(bytes) => CommentTaken(bytes);
    case Process(pi) => InstructionTaken(pi);
    case Empty(_, attributes, _) => AttributesTaken(attributes);
    case Element(_, attributes, _, content, _) =>
      AttributesTaken(attributes);
      ContentTaken(content);
  }

  lemma {:induction false} ContentTaken(nodes: seq<Node>)
    requires GoodContent(nodes)
    ensures TakenContent(nodes) <==> ContentKnown(nodes)
    decreases nodes, 0
  {
    hide GoodNode, TakenNode, Known;
    if nodes != [] {
      NodeTaken(nodes[0]);
      ContentTaken(nodes[1..]);
    }
  }

  lemma MarkupTaken(parts: seq<MarkupPart>)
    requires forall i :: 0 <= i < |parts| ==> GoodMarkupPart(parts[i])
    ensures TakenMarkup(parts)
  {
    forall i | 0 <= i < |parts|
      ensures TakenMarkupPart(parts[i])
    {
      assert GoodMarkupPart(parts[i]);
    }
  }

  lemma PartTaken(d: DoctypePart)
    requires GoodDoctypePart(d)
    ensures TakenDoctypePart(d) <==> (d.DoctypeOrder? ==> InstructionCloses(d.pi))
  {
    hide GoodComment, TakenComment, GoodInstruction, TakenInstruction, InstructionCloses, GoodMarkupPart, TakenMarkup;
    match d
    case Markup(_, parts) => MarkupTaken(parts);
    case DoctypeRemark(bytes) => CommentTaken(bytes);
    case DoctypeOrder(pi) => InstructionTaken(pi);
    case _ =>
  }

  lemma DoctypeTaken(parts: seq<DoctypePart>)
    requires GoodDoctype(parts)
    ensures TakenDoctype(parts) <==> DoctypeKnown(parts)
  {
    hide GoodDoctypePart, TakenDoctypePart, InstructionCloses;
    forall i | 0 <= i < |parts|
      ensures TakenDoctypePart(parts[i]) <==> (parts[i].DoctypeOrder? ==> InstructionCloses(parts[i].pi))
    {
      PartTaken(parts[i]);
    }
  }

  lemma MiscTaken(x: Misc)
    requires GoodMisc(x)
    ensures TakenMisc(x) <==> MiscKnown(x)
  {
    hide Blanks, GoodComment, TakenComment, GoodInstruction, TakenInstruction, InstructionCloses, GoodDoctype, TakenDoctype, DoctypeKnown;
    match x
    case Space(_) =>
    case Remark(bytes) => CommentTaken(bytes);
    case Order(pi) => InstructionTaken(pi);
    case Doctype(parts) => DoctypeTaken(parts);
  }

  lemma MiscsTaken(xs: seq<Misc>)
    requires GoodMiscs(xs)
    ensures TakenMiscs(xs) <==> MiscsKnown(xs)
  {
    hide GoodMisc, TakenMisc, MiscKnown;
    forall i | 0 <= i < |xs|
      ensures TakenMisc(xs[i]) <==> MiscKnown(xs[i])
    {
      MiscTaken(xs[i]);
    }
  }

  /** Of the documents of the standard the parser takes those with nothing in them that it does not know. */
  lemma DocumentTaken(d: Document)
    requires GoodDocument(d)
    ensures TakenDocument(d) <==> DocumentKnown(d)
  {
    hide GoodDeclaration, GoodMiscs, TakenMiscs, MiscsKnown, GoodNode, TakenNode, Known, NoDoctype;
    MiscsTaken(d.prolog);
    NodeTaken(d.root);
    MiscsTaken(d.after);
  }
}
