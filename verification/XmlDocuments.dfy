// The documents that XML 1.0 defines, as trees of what a writer can choose, with their text and with what a parser has
// to report about them. Bytes above ASCII count as letters; whether they form UTF-8 is not looked at.
module XmlDocuments {
  import opened Bytes
  import opened CLibrary
  import opened Options
  import opened XmlStates

  // ---------------------------------------------------------------- the trees

  datatype Quote = Single | Double

  datatype Reference = Lt | Gt | Amp | Apos | Quot | Decimal(digits: seq<Byte>) | Hexadecimal(digits: seq<Byte>)

  /** A character of text or of an attribute value. */
  datatype Piece = Plain(b: Byte) | Refer(r: Reference)

  /** `space` is the white space before it; `left` and `right` are around the equals sign. */
  datatype Attribute = Attribute(space: seq<Byte>, name: seq<Byte>, left: seq<Byte>, right: seq<Byte>, quote: Quote, value: seq<Piece>)

  /** Without a separator there is no data. */
  datatype Instruction = Instruction(target: seq<Byte>, separator: seq<Byte>, data: seq<Byte>)

  datatype Node =
    | Character(p: Piece)
    | CData(bytes: seq<Byte>)
    | Note(bytes: seq<Byte>)
    | Process(pi: Instruction)
    | Empty(name: seq<Byte>, attributes: seq<Attribute>, space: seq<Byte>)
    | Element(name: seq<Byte>, attributes: seq<Attribute>, space: seq<Byte>, content: seq<Node>, last: seq<Byte>)

  /** What may stand outside of the root element. */
  datatype Misc = Space(b: Byte) | Remark(bytes: seq<Byte>) | Order(pi: Instruction) | Doctype(parts: seq<DoctypePart>)

  /** A document type declaration is read as a sequence of these; its brackets are other characters. */
  datatype DoctypePart =
    | Other(b: Byte)
    | Literal(quote: Quote, bytes: seq<Byte>)
    | Markup(first: Byte, parts: seq<MarkupPart>)
    | DoctypeRemark(bytes: seq<Byte>)
    | DoctypeOrder(pi: Instruction)

  datatype MarkupPart = MarkupOther(b: Byte) | MarkupLiteral(quote: Quote, bytes: seq<Byte>)

  /** A part of the XML declaration: a name is given a quoted value. */
  datatype Setting = Setting(space: seq<Byte>, left: seq<Byte>, right: seq<Byte>, quote: Quote, value: seq<Byte>)

  datatype Declaration = Declaration(version: Setting, encoding: Option<Setting>, standalone: Option<Setting>, space: seq<Byte>)

  datatype Document = Document(
    mark: bool,                       // the byte order mark
    lead: seq<Byte>,                  // white space in front of everything else: not in a document of the standard
    declaration: Option<Declaration>,
    prolog: seq<Misc>,
    root: Node,
    cut: bool,                        // whether the last ">" of the root is missing: not in a document of the standard
    after: seq<Misc>
  )

  // ---------------------------------------------------------------- the grammar

  /** Production 2, without the carriage returns that section 2.11 replaces. */
  predicate Char(b: Byte) { b == 0x09 || b == 0x0A || b >= 0x20 }

  predicate Chars(s: seq<Byte>) { forall i :: 0 <= i < |s| ==> Char(s[i]) }

  /** Production 3: white space. */
  predicate Blanks(s: seq<Byte>) { forall i :: 0 <= i < |s| ==> s[i] == 0x20 || s[i] == 0x09 || s[i] == 0x0A }

  predicate Letter(b: Byte) { 0x41 <= b <= 0x5A || 0x61 <= b <= 0x7A }

  predicate Digit(b: Byte) { 0x30 <= b <= 0x39 }

  /** Productions 4 and 5: names. */
  predicate NameStart(b: Byte) { Letter(b) || b == 0x3A || b == 0x5F || b >= 0x80 }

  predicate NameByte(b: Byte) { NameStart(b) || Digit(b) || b == 0x2D || b == 0x2E }

  predicate NameBytes(s: seq<Byte>) { forall i :: 0 <= i < |s| ==> NameByte(s[i]) }

  predicate IsNameOf(s: seq<Byte>) { s != [] && NameStart(s[0]) && NameBytes(s[1..]) }

  /** Productions 66 and 68: references. The number is that of a character. */
  predicate Referable(r: Reference) {
    match r
    case Decimal(digits) => digits != [] && (forall i :: 0 <= i < |digits| ==> Digit(digits[i])) && XmlCharacter(CodeOf(r))
    case Hexadecimal(digits) => digits != [] && (forall i :: 0 <= i < |digits| ==> HexDigitOf(digits[i])) && XmlCharacter(CodeOf(r))
    case _ => true
  }

  predicate HexDigitOf(b: Byte) { Digit(b) || 0x41 <= b <= 0x46 || 0x61 <= b <= 0x66 }

  predicate XmlCharacter(c: nat) {
    c == 0x9 || c == 0xA || c == 0xD || 0x20 <= c <= 0xD7FF || 0xE000 <= c <= 0xFFFD || 0x10000 <= c <= 0x10FFFF
  }

  /** Production 14: text, without the ban on the end of a CDATA section. */
  predicate TextPiece(p: Piece) {
    match p
    case Plain(b) => Char(b) && b != 0x3C && b != 0x26
    case Refer(r) => Referable(r)
  }

  /** Production 10: attribute values. */
  predicate ValuePiece(p: Piece, q: Quote) {
    TextPiece(p) && (p.Plain? ==> p.b != QuoteMark(q))
  }

  predicate ValuePieces(ps: seq<Piece>, q: Quote) { forall i :: 0 <= i < |ps| ==> ValuePiece(ps[i], q) }

  predicate GoodAttribute(a: Attribute) {
    && a.space != [] && Blanks(a.space) && IsNameOf(a.name) && Blanks(a.left) && Blanks(a.right) && ValuePieces(a.value, a.quote)
  }

  predicate GoodAttributes(attributes: seq<Attribute>) {
    forall i :: 0 <= i < |attributes| ==> GoodAttribute(attributes[i])
  }

  /** The bytes a and b, and then c, occur nowhere in a row. */
  predicate Never(s: seq<Byte>, a: Byte, b: Byte) {
    forall i :: 0 <= i < |s| - 1 ==> !(s[i] == a && s[i + 1] == b)
  }

  predicate NeverThree(s: seq<Byte>, a: Byte, b: Byte, c: Byte) {
    forall i :: 0 <= i < |s| - 2 ==> !(s[i] == a && s[i + 1] == b && s[i + 2] == c)
  }

  /** Production 15: comments. */
  predicate GoodComment(s: seq<Byte>) {
    Chars(s) && Never(s, 0x2D, 0x2D) && (s != [] ==> s[|s| - 1] != 0x2D)
  }

  /** Productions 16 and 17: processing instructions. */
  predicate GoodInstruction(pi: Instruction) {
    && IsNameOf(pi.target) && !NamesXml(pi.target)
    && |pi.separator| <= 1 && Blanks(pi.separator) && (pi.separator == [] ==> pi.data == [])
    && Chars(pi.data) && Never(pi.data, 0x3F, 0x3E)
  }

  /** x, m, l in any mixture of cases. */
  predicate NamesXml(s: seq<Byte>) {
    |s| == 3 && (s[0] == 0x78 || s[0] == 0x58) && (s[1] == 0x6D || s[1] == 0x4D) && (s[2] == 0x6C || s[2] == 0x4C)
  }

  /** Production 20: CDATA sections. */
  predicate GoodCData(s: seq<Byte>) {
    Chars(s) && NeverThree(s, 0x5D, 0x5D, 0x3E)
  }

  /** Productions 39 to 44: elements. */
  predicate GoodNode(n: Node)
    decreases n, 1
  {
    match n
    case Character(p) => TextPiece(p)
    case CData(bytes) => GoodCData(bytes)
    case Note(bytes) => GoodComment(bytes)
    case Process(pi) => GoodInstruction(pi)
    case Empty(name, attributes, space) => IsNameOf(name) && GoodAttributes(attributes) && Blanks(space)
    case Element(name, attributes, space, content, last) =>
      IsNameOf(name) && GoodAttributes(attributes) && Blanks(space) && GoodContent(content) && Blanks(last)
  }

  predicate GoodContent(nodes: seq<Node>)
    decreases nodes, 0
  {
    nodes != [] ==> GoodNode(nodes[0]) && GoodContent(nodes[1..])
  }

  predicate GoodMisc(x: Misc) {
    match x
    case Space(b) => Blanks([b])
    case Remark(bytes) => GoodComment(bytes)
    case Order(pi) => GoodInstruction(pi)
    case Doctype(parts) => GoodDoctype(parts)
  }

  predicate GoodMiscs(xs: seq<Misc>) { forall i :: 0 <= i < |xs| ==> GoodMisc(xs[i]) }

  predicate GoodLiteral(q: Quote, s: seq<Byte>) {
    Chars(s) && QuoteMark(q) !in s
  }

  /** Production 28 and what stands in it. */
  predicate GoodDoctypePart(d: DoctypePart) {
    match d
    case Other(b) => OtherChar(b) && b != 0x3C
    case Literal(q, bytes) => GoodLiteral(q, bytes)
    case Markup(first, parts) => Letter(first) && forall i :: 0 <= i < |parts| ==> GoodMarkupPart(parts[i])
    case DoctypeRemark(bytes) => GoodComment(bytes)
    case DoctypeOrder(pi) => GoodInstruction(pi)
  }

  predicate OtherChar(b: Byte) { Char(b) && b != 0x3E && b != 0x22 && b != 0x27 }

  predicate GoodMarkupPart(p: MarkupPart) {
    match p
    case MarkupOther(b) => OtherChar(b)
    case MarkupLiteral(q, bytes) => GoodLiteral(q, bytes)
  }

  predicate GoodDoctype(parts: seq<DoctypePart>) { forall i :: 0 <= i < |parts| ==> GoodDoctypePart(parts[i]) }

  predicate GoodSetting(s: Setting) {
    s.space != [] && Blanks(s.space) && Blanks(s.left) && Blanks(s.right)
  }

  /** Productions 23 to 26, 32, 80 and 81: the XML declaration. */
  predicate GoodDeclaration(d: Declaration) {
    && GoodSetting(d.version) && GoodVersion(d.version.value)
    && (d.encoding.Some? ==> GoodSetting(d.encoding.value) && GoodEncoding(d.encoding.value.value))
    && (d.standalone.Some? ==> GoodSetting(d.standalone.value) && YesOrNo(d.standalone.value.value))
    && Blanks(d.space)
  }

  predicate GoodVersion(s: seq<Byte>) {
    |s| > 2 && s[0] == 0x31 && s[1] == 0x2E && forall i :: 2 <= i < |s| ==> Digit(s[i])
  }

  predicate GoodEncoding(s: seq<Byte>) {
    && s != [] && Letter(s[0])
    && forall i :: 1 <= i < |s| ==> Letter(s[i]) || Digit(s[i]) || s[i] == 0x2E || s[i] == 0x5F || s[i] == 0x2D
  }

  predicate YesOrNo(s: seq<Byte>) {
    s == [0x79, 0x65, 0x73] || s == [0x6E, 0x6F]
  }

  /** Productions 1, 22 and 27: a document, with at most one document type, in front of the root. */
  predicate GoodDocument(d: Document) {
    && d.lead == [] && !d.cut
    && (d.declaration.Some? ==> GoodDeclaration(d.declaration.value))
    && GoodMiscs(d.prolog) && (forall i, j :: 0 <= i < j < |d.prolog| ==> !(d.prolog[i].Doctype? && d.prolog[j].Doctype?))
    && (d.root.Empty? || d.root.Element?) && GoodNode(d.root)
    && GoodMiscs(d.after) && NoDoctype(d.after)
  }

  predicate NoDoctype(xs: seq<Misc>) { forall i :: 0 <= i < |xs| ==> !xs[i].Doctype? }

  // ---------------------------------------------------------------- their text

  function QuoteMark(q: Quote): Byte { if q == Single then 0x27 else 0x22 }

  function InQuotes(q: Quote, s: seq<Byte>): seq<Byte> {
    [QuoteMark(q)] + (s + [QuoteMark(q)])
  }

  function ReferenceName(r: Reference): seq<Byte> {
    match r
    case Lt => [0x6C, 0x74]
    case Gt => [0x67, 0x74]
    case Amp => [0x61, 0x6D, 0x70]
    case Apos => [0x61, 0x70, 0x6F, 0x73]
    case Quot => [0x71, 0x75, 0x6F, 0x74]
    case Decimal(digits) => [0x23] + digits
    case Hexadecimal(digits) => [0x23, 0x78] + digits
  }

  function WritePiece(p: Piece): seq<Byte> {
    match p
    case Plain(b) => [b]
    case Refer(r) => [0x26] + (ReferenceName(r) + [0x3B])
  }

  function WritePieces(ps: seq<Piece>): seq<Byte> {
    if ps == [] then [] else WritePiece(ps[0]) + WritePieces(ps[1..])
  }

  function WriteAttribute(a: Attribute): seq<Byte> {
    a.space + (a.name + (a.left + ([0x3D] + (a.right + InQuotes(a.quote, WritePieces(a.value))))))
  }

  function WriteAttributes(attributes: seq<Attribute>): seq<Byte> {
    if attributes == [] then [] else WriteAttribute(attributes[0]) + WriteAttributes(attributes[1..])
  }

  function WriteComment(s: seq<Byte>): seq<Byte> {
    [0x3C, 0x21, 0x2D, 0x2D] + (s + [0x2D, 0x2D, 0x3E])
  }

  function WriteInstruction(pi: Instruction): seq<Byte> {
    [0x3C, 0x3F] + (pi.target + (pi.separator + (pi.data + [0x3F, 0x3E])))
  }

  function WriteCData(s: seq<Byte>): seq<Byte> {
    [0x3C, 0x21, 0x5B, 0x43, 0x44, 0x41, 0x54, 0x41, 0x5B] + (s + [0x5D, 0x5D, 0x3E])
  }

  function WriteNode(n: Node): seq<Byte>
    decreases n, 1
  {
    match n
    case Character(p) => WritePiece(p)
    case CData(bytes) => WriteCData(bytes)
    case Note(bytes) => WriteComment(bytes)
    case Process(pi) => WriteInstruction(pi)
    case Empty(name, attributes, space) => [0x3C] + (name + (WriteAttributes(attributes) + (space + [0x2F, 0x3E])))
    case Element(name, attributes, space, content, last) =>
      [0x3C] + (name + (WriteAttributes(attributes) + (space + ([0x3E] + (WriteContent(content) + WriteEnd(name, last))))))
  }

  function WriteEnd(name: seq<Byte>, last: seq<Byte>): seq<Byte> {
    [0x3C, 0x2F] + (name + (last + [0x3E]))
  }

  function WriteContent(nodes: seq<Node>): seq<Byte>
    decreases nodes, 0
  {
    if nodes == [] then [] else WriteNode(nodes[0]) + WriteContent(nodes[1..])
  }

  function WriteMisc(x: Misc): seq<Byte> {
    match x
    case Space(b) => [b]
    case Remark(bytes) => WriteComment(bytes)
    case Order(pi) => WriteInstruction(pi)
    case Doctype(parts) => WriteDoctype(parts)
  }

  function WriteMiscs(xs: seq<Misc>): seq<Byte> {
    if xs == [] then [] else WriteMisc(xs[0]) + WriteMiscs(xs[1..])
  }

  function WriteMarkup(parts: seq<MarkupPart>): seq<Byte> {
    if parts == [] then []
    else (match parts[0] case MarkupOther(b) => [b] case MarkupLiteral(q, bytes) => InQuotes(q, bytes)) + WriteMarkup(parts[1..])
  }

  function WriteDoctypePart(d: DoctypePart): seq<Byte> {
    match d
    case Other(b) => [b]
    case Literal(q, bytes) => InQuotes(q, bytes)
    case Markup(first, parts) => [0x3C, 0x21, first] + (WriteMarkup(parts) + [0x3E])
    case DoctypeRemark(bytes) => WriteComment(bytes)
    case DoctypeOrder(pi) => WriteInstruction(pi)
  }

  function WriteDoctypeParts(parts: seq<DoctypePart>): seq<Byte> {
    if parts == [] then [] else WriteDoctypePart(parts[0]) + WriteDoctypeParts(parts[1..])
  }

  function WriteDoctype(parts: seq<DoctypePart>): seq<Byte> {
    [0x3C, 0x21, 0x44, 0x4F, 0x43, 0x54, 0x59, 0x50, 0x45] + (WriteDoctypeParts(parts) + [0x3E])
  }

  function WriteSetting(name: seq<Byte>, s: Setting): seq<Byte> {
    s.space + (name + (s.left + ([0x3D] + (s.right + InQuotes(s.quote, s.value)))))
  }

  const VERSION: seq<Byte> := [0x76, 0x65, 0x72, 0x73, 0x69, 0x6F, 0x6E]
  const ENCODING: seq<Byte> := [0x65, 0x6E, 0x63, 0x6F, 0x64, 0x69, 0x6E, 0x67]
  const STANDALONE: seq<Byte> := [0x73, 0x74, 0x61, 0x6E, 0x64, 0x61, 0x6C, 0x6F, 0x6E, 0x65]

  function WriteOptional(name: seq<Byte>, s: Option<Setting>): seq<Byte> {
    match s
    case None => []
    case Some(setting) => WriteSetting(name, setting)
  }

  function WriteDeclaration(d: Declaration): seq<Byte> {
    [0x3C, 0x3F, 0x78, 0x6D, 0x6C] + (WriteSetting(VERSION, d.version) +
      (WriteOptional(ENCODING, d.encoding) + (WriteOptional(STANDALONE, d.standalone) + (d.space + [0x3F, 0x3E]))))
  }

  function WriteRoot(n: Node, cut: bool): seq<Byte> {
    var text := WriteNode(n);
    if cut && text != [] then text[..|text| - 1] else text
  }

  function Write(d: Document): seq<Byte> {
    (if d.mark then [0xEF, 0xBB, 0xBF] else []) +
      (d.lead +
        ((if d.declaration.Some? then WriteDeclaration(d.declaration.value) else []) +
          (WriteMiscs(d.prolog) + (WriteRoot(d.root, d.cut) + WriteMiscs(d.after)))))
  }

  // ---------------------------------------------------------------- what is reported

  /** A return code with the name it comes with, if any, or one byte of text, of an attribute value or of the data of an
      instruction. */
  datatype Report = Mark(ret: Ret, name: seq<Byte>) | Datum(ret: Ret, b: Byte)

  function Data(ret: Ret, s: seq<Byte>): seq<Report> {
    if s == [] then [] else [Datum(ret, s[0])] + Data(ret, s[1..])
  }

  function HexValueOf(b: Byte): int {
    if b >= 0x61 then b - 0x61 + 10 else if b >= 0x41 then b - 0x41 + 10 else b - 0x30
  }

  /** The number that digits spell to a base. */
  function NumberOf(digits: seq<Byte>, base: nat): int {
    if digits == [] then 0 else NumberOf(digits[..|digits| - 1], base) * base + HexValueOf(digits[|digits| - 1])
  }

  function CodeOf(r: Reference): nat {
    match r
    case Lt => 0x3C
    case Gt => 0x3E
    case Amp => 0x26
    case Apos => 0x27
    case Quot => 0x22
    case Decimal(digits) => if NumberOf(digits, 10) >= 0 then NumberOf(digits, 10) else 0
    case Hexadecimal(digits) => if NumberOf(digits, 16) >= 0 then NumberOf(digits, 16) else 0
  }

  /** The bytes of the character in UTF-8, in three bytes for a surrogate, which is none. */
  function Encoded(c: nat): seq<Byte> {
    if 0xD800 <= c < 0xE000 then [0xE0 + c / 4096, 0x80 + c / 64 % 64, 0x80 + c % 64]
    else if Utf8(c).Some? then Utf8(c).value
    else []
  }

  function TextOf(p: Piece): seq<Byte> {
    match p
    case Plain(b) => [b]
    case Refer(r) => Encoded(CodeOf(r))
  }

  /** Section 3.3.3: white space becomes a space, unless a reference stands for it. */
  function ValueOf(p: Piece): seq<Byte> {
    match p
    case Plain(b) => [if b == 0x09 || b == 0x0A then 0x20 else b]
    case Refer(r) => Encoded(CodeOf(r))
  }

  function ValuesOf(ps: seq<Piece>): seq<Byte> {
    if ps == [] then [] else ValueOf(ps[0]) + ValuesOf(ps[1..])
  }

  function AttributeReports(a: Attribute): seq<Report> {
    [Mark(AttrStart, a.name)] + (Data(AttrVal, ValuesOf(a.value)) + [Mark(AttrEnd, [])])
  }

  function AttributesReports(attributes: seq<Attribute>): seq<Report> {
    if attributes == [] then [] else AttributeReports(attributes[0]) + AttributesReports(attributes[1..])
  }

  function InstructionReports(pi: Instruction): seq<Report> {
    [Mark(PiStart, pi.target)] + (Data(PiContent, pi.data) + [Mark(PiEnd, [])])
  }

  function NodeReports(n: Node): seq<Report>
    decreases n, 1
  {
    match n
    case Character(p) => Data(Content, TextOf(p))
    case CData(bytes) => Data(Content, bytes)
    case Note(_) => []
    case Process(pi) => InstructionReports(pi)
    case Empty(name, attributes, _) => [Mark(ElemStart, name)] + (AttributesReports(attributes) + [Mark(ElemEnd, [])])
    case Element(name, attributes, _, content, _) =>
      [Mark(ElemStart, name)] + (AttributesReports(attributes) + (ContentReports(content) + [Mark(ElemEnd, [])]))
  }

  function ContentReports(nodes: seq<Node>): seq<Report>
    decreases nodes, 0
  {
    if nodes == [] then [] else NodeReports(nodes[0]) + ContentReports(nodes[1..])
  }

  function MiscReports(x: Misc): seq<Report> {
    match x
    case Order(pi) => InstructionReports(pi)
    case Doctype(parts) => DoctypeReports(parts)
    case _ => []
  }

  function MiscsReports(xs: seq<Misc>): seq<Report> {
    if xs == [] then [] else MiscReports(xs[0]) + MiscsReports(xs[1..])
  }

  function DoctypeReports(parts: seq<DoctypePart>): seq<Report> {
    if parts == [] then []
    else (if parts[0].DoctypeOrder? then InstructionReports(parts[0].pi) else []) + DoctypeReports(parts[1..])
  }

  function Reports(d: Document): seq<Report> {
    MiscsReports(d.prolog) + (NodeReports(d.root) + MiscsReports(d.after))
  }

  // ---------------------------------------------------------------- where the parser falls short of the standard

  /** How many question marks there are at the end. */
  function Questions(s: seq<Byte>): nat {
    if s == [] || s[|s| - 1] != 0x3F then 0 else 1 + Questions(s[..|s| - 1])
  }

  /** The question marks at the end of the data are even in number. */
  predicate InstructionCloses(pi: Instruction) { Questions(pi.data) % 2 == 0 }

  /** References of at most seven characters; the parser refuses a part of the private use area. */
  predicate ReferenceKnown(r: Reference) {
    |ReferenceName(r)| <= 7 && !(0xE000 <= CodeOf(r) <= 0xE7FD)
  }

  predicate PieceKnown(p: Piece) { p.Refer? ==> ReferenceKnown(p.r) }

  predicate PiecesKnown(ps: seq<Piece>) { forall i :: 0 <= i < |ps| ==> PieceKnown(ps[i]) }

  predicate AttributesKnown(attributes: seq<Attribute>) {
    forall i :: 0 <= i < |attributes| ==> PiecesKnown(attributes[i].value)
  }

  predicate Known(n: Node)
    decreases n, 1
  {
    match n
    case Character(p) => PieceKnown(p)
    case CData(_) => true
    case Note(_) => true
    case Process(pi) => InstructionCloses(pi)
    case Empty(_, attributes, _) => AttributesKnown(attributes)
    case Element(_, attributes, _, content, _) => AttributesKnown(attributes) && ContentKnown(content)
  }

  predicate ContentKnown(nodes: seq<Node>)
    decreases nodes, 0
  {
    nodes != [] ==> Known(nodes[0]) && ContentKnown(nodes[1..])
  }

  predicate MiscKnown(x: Misc) {
    match x
    case Order(pi) => InstructionCloses(pi)
    case Doctype(parts) => DoctypeKnown(parts)
    case _ => true
  }

  predicate MiscsKnown(xs: seq<Misc>) { forall i :: 0 <= i < |xs| ==> MiscKnown(xs[i]) }

  predicate DoctypeKnown(parts: seq<DoctypePart>) {
    forall i :: 0 <= i < |parts| && parts[i].DoctypeOrder? ==> InstructionCloses(parts[i].pi)
  }

  /** Nothing in the document is of the kinds that the parser does not take, and there is no white space in the end tag
      of the root. */
  predicate DocumentKnown(d: Document) {
    MiscsKnown(d.prolog) && Known(d.root) && (d.root.Element? ==> d.root.last == []) && MiscsKnown(d.after)
  }

  // ---------------------------------------------------------------- line ends

  /** Section 2.11: a carriage return with or without a line feed behind it is a line feed. `pending` says that a
      carriage return has just been read. */
  function LineEnds(text: seq<Byte>, pending: bool): seq<Byte> {
    if text == [] then []
    else if text[0] == 0x0D then [0x0A] + LineEnds(text[1..], true)
    else if pending && text[0] == 0x0A then LineEnds(text[1..], false)
    else [text[0]] + LineEnds(text[1..], false)
  }
}
