// The automaton of src/c/yxml.c over the list of names that its byte stack stands for, and what it
// promises about documents: elements nest, and an end tag names the innermost open element.
module XmlAutomaton {
  import opened Bytes
  import opened Options
  import opened Sequences
  import opened XmlStates

  type Name = seq<Byte>

  datatype Machine = Machine(
    regs: Regs,
    ignore: Byte,             // the line feed of a carriage return line feed pair
    open: seq<Name>,          // elements, the innermost last
    extra: seq<Name>,         // the attribute or instruction being read, at most one
    tag: Name,                // what an end tag has matched so far
    reference: seq<Byte>,     // between '&' and ';'
    room: nat                 // stacksize
  )

  function Start(room: nat): Machine {
    Machine(Regs(Init, StString, 0, []), 0, [], [], [], [], room)
  }

  // ---------------------------------------------------------------- the byte stack

  /** The bytes of the stack: each name with a terminator, after a first terminator. */
  function Flat(names: seq<Name>): seq<Byte> {
    if names == [] then [NUL] else Flat(names[..|names| - 1]) + names[|names| - 1] + [NUL]
  }

  /** x->stacklen: the index of the last terminator. */
  function Depth(m: Machine): int {
    |Flat(m.open + m.extra)| - 1
  }

  function Last<T>(s: seq<T>): T
    requires s != []
  {
    s[|s| - 1]
  }

  function Front<T>(s: seq<T>): seq<T>
    requires s != []
  {
    s[..|s| - 1]
  }

  function Grown(names: seq<Name>, c: Byte): seq<Name> {
    if names == [] then [] else Front(names) + [Last(names) + [c]]
  }

  lemma FlatPush(names: seq<Name>, n: Name)
    ensures Flat(names + [n]) == Flat(names) + n + [NUL]
  {
    assert (names + [n])[..|names|] == names;
  }

  // ---------------------------------------------------------------- references

  predicate IsHex(c: Byte) { IsNum(c) || 65 <= c <= 70 || 97 <= c <= 102 }

  function HexDigit(c: Byte): int {
    if c <= 57 then c - 48 else if c <= 70 then c - 65 + 10 else c - 97 + 10
  }

  /** The number the digits spell; none if something else follows them. */
  function Numeral(s: seq<Byte>, base: nat, value: nat): nat {
    if s == [] then value
    else if base == 16 && IsHex(s[0]) && HexDigit(s[0]) >= 0 then Numeral(s[1..], base, value * 16 + HexDigit(s[0]))
    else if base == 10 && IsNum(s[0]) then Numeral(s[1..], base, value * 10 + (s[0] - 48))
    else 0
  }

  function CodePoint(r: seq<Byte>): nat {
    if r != [] && r[0] == Ch('#') then
      if |r| > 1 && r[1] == Ch('x') then Numeral(r[2..], 16, 0) else Numeral(r[1..], 10, 0)
    else if r == Text("lt") then Ch('<')
    else if r == Text("gt") then Ch('>')
    else if r == Text("amp") then Ch('&')
    else if r == Text("apos") then Ch('\'')
    else if r == Text("quot") then Ch('"')
    else 0
  }

  /** The test of yxml_refend; ch - 0xDFFF is unsigned. */
  predicate Accepted(ch: nat) {
    !(ch == 0 || ch > 0x10FFFF || ch == 0xFFFE || ch == 0xFFFF || (ch >= 0xDFFF && ch - 0xDFFF < 0x7FF))
  }

  /** Char in section 2.2 of XML 1.1, which the source refers to. */
  predicate XmlChar(ch: nat) {
    0x1 <= ch <= 0xD7FF || 0xE000 <= ch <= 0xFFFD || 0x10000 <= ch <= 0x10FFFF
  }

  /** Char in section 2.2 of XML 1.0: fewer control characters. */
  predicate XmlChar10(ch: nat) {
    ch == 0x9 || ch == 0xA || ch == 0xD || 0x20 <= ch <= 0xD7FF || 0xE000 <= ch <= 0xFFFD || 0x10000 <= ch <= 0x10FFFF
  }

  /** The test is a whole block too late: it lets the surrogates through, all but the last, and refuses the
      first characters of the private use area. Everywhere else it is right for XML 1.1. */
  lemma AcceptedIsXmlChar(ch: nat)
    ensures (Accepted(ch) <==> XmlChar(ch)) <==> !(0xD800 <= ch < 0xDFFF || 0xE000 <= ch <= 0xE7FD)
  {
  }

  /** For XML 1.0 it also lets through the control characters that are not white space. */
  lemma AcceptedIsXmlChar10(ch: nat)
    ensures (Accepted(ch) <==> XmlChar10(ch)) <==>
      !(0xD800 <= ch < 0xDFFF || 0xE000 <= ch <= 0xE7FD || (0 < ch < 0x20 && ch != 0x9 && ch != 0xA && ch != 0xD))
  {
  }

  // ---------------------------------------------------------------- the helpers

  datatype Outcome = Outcome(m: Machine, ret: Ret)

  function CloseTop(m: Machine): (o: Outcome)
    ensures o.ret == ElemEnd
  {
    if m.open == [] then Outcome(m, ElemEnd)
    else
      var rest := m.(open := Front(m.open), tag := []);
      Outcome(if rest.open == [] then rest.(regs := rest.regs.(state := Misc(3))) else rest, ElemEnd)
  }

  function Perform(m: Machine, a: Action, c: Byte): Outcome {
    match a
    case Give(ret) => Outcome(m, ret)
    case PushElem => if Depth(m) + 2 >= m.room then Outcome(m, Estack) else Outcome(m.(open := m.open + [[c]]), Ok)
    case PushAttr => if Depth(m) + 2 >= m.room then Outcome(m, Estack) else Outcome(m.(extra := [[c]]), Ok)
    case PushPi => if Depth(m) + 2 >= m.room then Outcome(m, Estack) else Outcome(m.(extra := [[c]]), Ok)
    case GrowElem => if Depth(m) + 1 >= m.room then Outcome(m, Estack) else Outcome(m.(open := Grown(m.open, c)), Ok)
    case GrowAttr => if Depth(m) + 1 >= m.room then Outcome(m, Estack) else Outcome(m.(extra := Grown(m.extra, c)), Ok)
    case GrowPi => if Depth(m) + 1 >= m.room then Outcome(m, Estack) else Outcome(m.(extra := Grown(m.extra, c)), Ok)
    case PopAttr => Outcome(m.(extra := []), AttrEnd)
    case PopPi => Outcome(m.(extra := []), PiEnd)
    case AbortPi => Outcome(m.(extra := []), Ok)
    case EndPiName => Outcome(m, if m.extra != [] && SaysXml(m.extra[0]) then Esyn else PiStart)
    case CloseSelf => CloseTop(m)
    case CloseChar =>
      if m.open != [] && |m.tag| < |Last(m.open)| && Last(m.open)[|m.tag|] == c then Outcome(m.(tag := m.tag + [c]), Ok)
      else Outcome(m, Eclose)
    case CloseEnd => if m.open != [] && |m.tag| == |Last(m.open)| then CloseTop(m) else Outcome(m, Eclose)
    case RefStart => Outcome(m.(reference := []), Ok)
    case RefChar => if |m.reference| >= 7 then Outcome(m, Eref) else Outcome(m.(reference := m.reference + [c]), Ok)
    case RefEnd(ret) => Outcome(m, if Accepted(CodePoint(m.reference)) then ret else Eref)
  }

  /** In any mixture of cases. */
  predicate SaysXml(n: Name) {
    |n| == 3 && (n[0] == 88 || n[0] == 120) && (n[1] == 77 || n[1] == 109) && (n[2] == 76 || n[2] == 108)
  }

  /** yxml_parse, with the normalisation of line ends (section 2.11 of XML 1.0). */
  function Step(m: Machine, b: Byte): Outcome {
    if b == NUL then Outcome(m, Esyn)
    else if m.ignore == b then Outcome(m.(ignore := 0), Ok)
    else
      var m' := m.(ignore := if b == 13 then 10 else 0);
      var c: Byte := if b == 13 then 10 else b;
      match OnByte(m'.regs, c)
      case Reject => Outcome(m', Esyn)
      case React(r, a) => Perform(m'.(regs := r), a, c)
  }

  /** yxml_setutf8 */
  function SetUtf8(ch: nat): seq<Byte> {
    if ch <= 0x7F then [ch]
    else if ch <= 0x7FF then [0xC0 + ch / 64, 0x80 + ch % 64]
    else if ch <= 0xFFFF then [0xE0 + ch / 4096, 0x80 + ch / 64 % 64, 0x80 + ch % 64]
    else [(0xF0 + ch / 262144) % 256, 0x80 + ch / 4096 % 64, 0x80 + ch / 64 % 64, 0x80 + ch % 64]
  }

  /** What x->data, x->elem, x->attr or x->pi holds for the caller when the byte has been taken: the bytes of content, of
      an attribute value or of an instruction, or the name that has ended. */
  function Said(m: Machine, b: Byte): seq<Byte> {
    var o := Step(m, b);
    var c: Byte := if b == 13 then 10 else b;
    match o.ret
    case Content =>
      if m.regs.state == Cd(1) then [Ch(']'), c]
      else if m.regs.state == Cd(2) then if c == Ch(']') then [c] else [Ch(']'), Ch(']'), c]
      else if m.regs.state == Misc2a then SetUtf8(CodePoint(m.reference))
      else [c]
    case AttrVal =>
      if m.regs.state == Attr(4) then SetUtf8(CodePoint(m.reference))
      else [if c == 0x9 || c == 0xa then 0x20 else c]
    case PiContent => if m.regs.state == Pi(3) then [Ch('?'), c] else [c]
    case ElemStart => if o.m.open != [] then Last(o.m.open) else []
    case AttrStart => if o.m.extra != [] then o.m.extra[0] else []
    case PiStart => if o.m.extra != [] then o.m.extra[0] else []
    case _ => []
  }

  function Eof(m: Machine): Ret {
    if m.regs.state != Misc(3) then Eeof else Ok
  }

  // ---------------------------------------------------------------- what the states stand for

  datatype Place = Before | Within | After

  /** Where in the document a state is, for a state that does not come back to another. */
  function PlaceOf(s: St): Place {
    match s
    case Attr(_) | Cd(_) | Elem(_) | Etag(_) | Misc2a => Within
    case Le(n) => if n == 3 then After else if n == 2 then Within else Before
    case Lee(n) => if n == 2 then Within else Before
    case Misc(n) => if n == 3 then After else if n == 2 then Within else Before
    case _ => Before
  }

  /** States that end in the state kept in `next`. */
  predicate Returns(s: St) {
    s.StString? || s == Dt(1) || s.Comment? || s.Pi? || (s.XmlDecl? && s.n < 3)
  }

  function Where(r: Regs): Place {
    PlaceOf(if Returns(r.state) then r.next else r.state)
  }

  /** States with the name of an attribute or an instruction on top of the stack. */
  predicate HoldsName(s: St) {
    s.Attr? || (s.Pi? && s.n > 0) || (s.XmlDecl? && s.n < 3)
  }

  predicate RegsFit(r: Regs) {
    && (Returns(r.state) ==>
        !Returns(r.next) && !HoldsName(r.next) && r.next != Elem(0) && r.next != Etag(1) && r.next != Etag(2))
    && (r.state == StString ==> r.literal != [])
    && (r.state.XmlDecl? && r.state.n < 3 ==> r.next == Misc(1))
  }

  /** What a helper may be called for. */
  predicate ActionFits(r: Regs, r': Regs, a: Action) {
    match a
    case PushElem => r'.state == Elem(0) && !HoldsName(r.state) && Where(r) != After && r.state != Elem(0) && r.state != Etag(1)
    case GrowElem => r.state == Elem(0) && r' == r
    case CloseSelf => r.state == Elem(3) && r'.state == Misc(2)
    case CloseChar => (r.state == Etag(0) || r.state == Etag(1)) && r'.state == Etag(1)
    case CloseEnd => r.state == Etag(1) && (r'.state == Misc(2) || r'.state == Etag(2))
    case PushAttr => Quiet(r, r') && !HoldsName(r.state) && HoldsName(r'.state)
    case PushPi => Quiet(r, r') && !HoldsName(r.state) && HoldsName(r'.state)
    case GrowAttr => Quiet(r, r') && HoldsName(r.state) && HoldsName(r'.state)
    case GrowPi => Quiet(r, r') && HoldsName(r.state) && HoldsName(r'.state)
    case EndPiName => Quiet(r, r') && HoldsName(r.state) && HoldsName(r'.state)
    case PopAttr => Quiet(r, r') && HoldsName(r.state) && !HoldsName(r'.state)
    case PopPi => Quiet(r, r') && HoldsName(r.state) && !HoldsName(r'.state)
    case AbortPi => Quiet(r, r') && HoldsName(r.state) && !HoldsName(r'.state)
    case Give(ret) =>
      && Where(r') == Where(r) && HoldsName(r'.state) == HoldsName(r.state)
      && (r.state == Elem(0) <==> ret == ElemStart) && ret != ElemEnd && !Negative(ret)
      && ret != PiStart && (ret == AttrStart ==> HoldsName(r.state))
      && r'.state != Elem(0) && r.state != Etag(1) && r'.state != Etag(1)
    case RefEnd(ret) => (ret == Content || ret == AttrVal) && Quiet(r, r') && HoldsName(r'.state) == HoldsName(r.state)
    case _ => Quiet(r, r') && HoldsName(r'.state) == HoldsName(r.state)
  }

  /** The open elements are not touched. */
  predicate Quiet(r: Regs, r': Regs) {
    && Where(r') == Where(r)
    && r.state != Elem(0) && r'.state != Elem(0) && r.state != Etag(1) && r'.state != Etag(1)
  }

  predicate ReactionFits(r: Regs, re: Reaction) {
    re.React? ==> RegsFit(re.regs) && ActionFits(r, re.regs, re.action)
  }

  lemma StringFits(r: Regs, c: Byte)
    requires RegsFit(r) && r.state == StString
    ensures ReactionFits(r, OnString(r, c))
  {
    hide IsSP, IsAlpha, IsNum, IsEncName, IsNameStart, IsName, IsQuote, IsRef, Text;
  }

  lemma AttrFits(r: Regs, c: Byte)
    requires RegsFit(r)
    ensures ReactionFits(r, OnAttr(r, c))
  {
    hide IsSP, IsAlpha, IsNum, IsEncName, IsNameStart, IsName, IsQuote, IsRef, Text;
  }

  lemma CdataFits(r: Regs, c: Byte)
    requires RegsFit(r)
    ensures ReactionFits(r, OnCdata(r, c))
  {
    hide IsSP, IsAlpha, IsNum, IsEncName, IsNameStart, IsName, IsQuote, IsRef, Text;
  }

  lemma CommentFits(r: Regs, c: Byte)
    requires RegsFit(r)
    ensures ReactionFits(r, OnComment(r, c))
  {
    hide IsSP, IsAlpha, IsNum, IsEncName, IsNameStart, IsName, IsQuote, IsRef, Text;
  }

  lemma DoctypeFits(r: Regs, c: Byte)
    requires RegsFit(r)
    ensures ReactionFits(r, OnDoctype(r, c))
  {
    hide IsSP, IsAlpha, IsNum, IsEncName, IsNameStart, IsName, IsQuote, IsRef, Text;
  }

  lemma ElemFits(r: Regs, c: Byte)
    requires RegsFit(r)
    ensures ReactionFits(r, OnElem(r, c))
  {
    hide IsSP, IsAlpha, IsNum, IsEncName, IsNameStart, IsName, IsQuote, IsRef, Text;
  }

  lemma LessFits(r: Regs, c: Byte)
    requires RegsFit(r)
    ensures ReactionFits(r, OnLess(r, c))
  {
    hide IsSP, IsAlpha, IsNum, IsEncName, IsNameStart, IsName, IsQuote, IsRef, Text;
  }

  lemma MarkFits(r: Regs, c: Byte)
    requires RegsFit(r)
    ensures ReactionFits(r, OnMark(r, c))
  {
    hide IsSP, IsAlpha, IsNum, IsEncName, IsNameStart, IsName, IsQuote, IsRef, Text;
  }

  lemma MiscFits(r: Regs, c: Byte)
    requires RegsFit(r)
    ensures ReactionFits(r, OnMisc(r, c))
  {
    hide IsSP, IsAlpha, IsNum, IsEncName, IsNameStart, IsName, IsQuote, IsRef, Text;
  }

  lemma PiFits(r: Regs, c: Byte)
    requires RegsFit(r)
    ensures ReactionFits(r, OnPi(r, c))
  {
    hide IsSP, IsAlpha, IsNum, IsEncName, IsNameStart, IsName, IsQuote, IsRef, Text;
  }

  lemma DeclarationFits(r: Regs, c: Byte)
    requires RegsFit(r)
    ensures ReactionFits(r, OnDeclaration(r, c))
  {
    hide IsSP, IsAlpha, IsNum, IsEncName, IsNameStart, IsName, IsQuote, IsRef, Text;
  }

  lemma VersionFits(r: Regs, c: Byte)
    requires RegsFit(r)
    ensures ReactionFits(r, OnVersion(r, c))
  {
    hide IsSP, IsAlpha, IsNum, IsEncName, IsNameStart, IsName, IsQuote, IsRef, Text;
  }

  lemma EncodingFits(r: Regs, c: Byte)
    requires RegsFit(r)
    ensures ReactionFits(r, OnEncoding(r, c))
  {
    hide IsSP, IsAlpha, IsNum, IsEncName, IsNameStart, IsName, IsQuote, IsRef, Text;
  }

  lemma StandaloneFits(r: Regs, c: Byte)
    requires RegsFit(r)
    ensures ReactionFits(r, OnStandalone(r, c))
  {
    hide IsSP, IsAlpha, IsNum, IsEncName, IsNameStart, IsName, IsQuote, IsRef, Text;
  }

  /** The table never asks a helper for something the stack does not have. */
  lemma TableFits(r: Regs, c: Byte)
    requires RegsFit(r)
    ensures ReactionFits(r, OnByte(r, c))
  {
    hide ReactionFits, RegsFit;
    match GroupOf(r.state)
    case GString => StringFits(r, c);
    case GAttr => AttrFits(r, c);
    case GCdata => CdataFits(r, c);
    case GComment => CommentFits(r, c);
    case GDoctype => DoctypeFits(r, c);
    case GElem => ElemFits(r, c);
    case GLess => LessFits(r, c);
    case GMark => MarkFits(r, c);
    case GMisc => MiscFits(r, c);
    case GPi => PiFits(r, c);
    case GDeclaration => DeclarationFits(r, c);
    case GVersion => VersionFits(r, c);
    case GEncoding => EncodingFits(r, c);
    case GStandalone => StandaloneFits(r, c);
  }

  // ---------------------------------------------------------------- the invariant

  ghost predicate Proper(n: Name) {
    n != [] && NUL !in n
  }

  /** What the state says about the stack. */
  ghost predicate Fits(m: Machine) {
    && RegsFit(m.regs)
    && |m.extra| == (if HoldsName(m.regs.state) then 1 else 0)
    && (m.open != [] <==> Where(m.regs) == Within)
    && (m.regs.state == Etag(1) ==> m.open != [] && m.tag != [] && m.tag <= Last(m.open))
    && (m.regs.state != Etag(1) ==> m.tag == [])
  }

  ghost predicate NamesFit(m: Machine) {
    && (forall n :: n in m.open ==> Proper(n))
    && (forall n :: n in m.extra ==> Proper(n))
    && Depth(m) < m.room
  }

  lemma PerformFits(m: Machine, r: Regs, a: Action, c: Byte)
    requires Fits(m) && RegsFit(r) && ActionFits(m.regs, r, a)
    ensures var o := Perform(m.(regs := r), a, c); !Negative(o.ret) ==> Fits(o.m)
  {
    hide Depth, CodePoint, Accepted, SaysXml;
  }

  lemma StepFits(m: Machine, b: Byte)
    requires Fits(m)
    ensures !Negative(Step(m, b).ret) ==> Fits(Step(m, b).m)
  {
    hide OnByte, Perform, RegsFit, ActionFits;
    if b != NUL && m.ignore != b {
      var m' := m.(ignore := if b == 13 then 10 else 0);
      var c: Byte := if b == 13 then 10 else b;
      TableFits(m'.regs, c);
      if OnByte(m'.regs, c).React? {
        PerformFits(m', OnByte(m'.regs, c).regs, OnByte(m'.regs, c).action, c);
      }
    }
  }

  // ---------------------------------------------------------------- names and room

  lemma FlatGrow(names: seq<Name>, c: Byte)
    requires names != []
    ensures |Flat(Grown(names, c))| == |Flat(names)| + 1
  {
    FlatPush(Front(names), Last(names) + [c]);
  }

  lemma FlatShrinks(names: seq<Name>)
    requires names != []
    ensures |Flat(Front(names))| < |Flat(names)|
  {
  }

  lemma GrownProper(names: seq<Name>, c: Byte)
    requires (forall n :: n in names ==> Proper(n)) && c != NUL
    ensures forall n :: n in Grown(names, c) ==> Proper(n)
  {
    if names != [] {
      assert Last(names) in names && Proper(Last(names));
      forall n | n in Grown(names, c) ensures Proper(n) {
        if n != Last(names) + [c] { assert n in names; }
      }
    }
  }

  lemma GrownExtra(names: seq<Name>, x: Name, c: Byte)
    ensures Grown(names + [x], c) == names + Grown([x], c)
  {
    assert Front(names + [x]) == names;
    assert Front([x]) == [];
  }

  lemma ElemNames(m: Machine, r: Regs, a: Action, c: Byte)
    requires Fits(m) && NamesFit(m) && ActionFits(m.regs, r, a) && c != NUL
    requires a.PushElem? || a.GrowElem?
    ensures var o := Perform(m.(regs := r), a, c); !Negative(o.ret) ==> NamesFit(o.m)
  {
    hide *;
    if a.PushElem? { PushNames(m, r, c); } else { GrowNames(m, r, c); }
  }

  lemma PushNames(m: Machine, r: Regs, c: Byte)
    requires Fits(m) && NamesFit(m) && ActionFits(m.regs, r, PushElem) && c != NUL
    ensures var o := Perform(m.(regs := r), PushElem, c); !Negative(o.ret) ==> NamesFit(o.m)
  {
    hide RegsFit, CodePoint, Accepted, SaysXml, CloseTop;
    NoSuffix(m.open);
    NoSuffix(m.open + [[c]]);
    FlatPush(m.open, [c]);
  }

  lemma GrowNames(m: Machine, r: Regs, c: Byte)
    requires Fits(m) && NamesFit(m) && ActionFits(m.regs, r, GrowElem) && c != NUL
    ensures var o := Perform(m.(regs := r), GrowElem, c); !Negative(o.ret) ==> NamesFit(o.m)
  {
    hide RegsFit, CodePoint, Accepted, SaysXml, CloseTop, Flat, Grown;
    NoSuffix(m.open);
    NoSuffix(Grown(m.open, c));
    GrownProper(m.open, c);
    FlatGrow(m.open, c);
  }

  lemma ExtraNames(m: Machine, r: Regs, a: Action, c: Byte)
    requires Fits(m) && NamesFit(m) && ActionFits(m.regs, r, a) && c != NUL
    requires a.PushAttr? || a.PushPi? || a.GrowAttr? || a.GrowPi?
    ensures var o := Perform(m.(regs := r), a, c); !Negative(o.ret) ==> NamesFit(o.m)
  {
    hide Flat, RegsFit, Proper, CodePoint, Accepted, SaysXml;
    if a.GrowAttr? || a.GrowPi? {
      GrowExtraNames(m, c);
    } else {
      NoSuffix(m.open);
      FlatPush(m.open, [c]);
      assert Proper([c]) by { ProperOne(c); }
    }
  }

  lemma ProperOne(c: Byte)
    requires c != NUL
    ensures Proper([c])
  {
  }

  lemma GrowExtraNames(m: Machine, c: Byte)
    requires NamesFit(m) && |m.extra| == 1 && c != NUL
    ensures Depth(m) + 1 < m.room ==> NamesFit(m.(extra := Grown(m.extra, c)))
  {
    hide Flat, Proper;
    var x := m.extra[0];
    assert m.extra == [x];
    GrownProper(m.extra, c);
    GrownExtra(m.open, x, c);
    FlatGrow(m.open + m.extra, c);
  }

  lemma DropExtraNames(m: Machine)
    requires NamesFit(m)
    ensures NamesFit(m.(extra := []))
    ensures |Flat(m.open)| <= Depth(m) + 1
    decreases |m.extra|
  {
    NoSuffix(m.open);
    if m.extra != [] {
      var x := Front(m.extra);
      assert Front(m.open + m.extra) == m.open + x;
      FlatShrinks(m.open + m.extra);
      DropExtraNames(m.(extra := x));
    }
  }

  lemma CloseNames(m: Machine)
    requires NamesFit(m) && m.open != [] && m.extra == []
    ensures NamesFit(CloseTop(m).m)
  {
    NoSuffix(m.open);
    NoSuffix(Front(m.open));
    FlatShrinks(m.open);
  }

  /** Names stay free of terminators, and the stack stays within its memory. */
  lemma PerformNames(m: Machine, r: Regs, a: Action, c: Byte)
    requires Fits(m) && NamesFit(m) && ActionFits(m.regs, r, a) && c != NUL
    ensures var o := Perform(m.(regs := r), a, c); !Negative(o.ret) ==> NamesFit(o.m)
  {
    hide RegsFit, CodePoint, Accepted, SaysXml, Flat;
    if a.PushElem? || a.GrowElem? {
      ElemNames(m, r, a, c);
    } else if a.PushAttr? || a.PushPi? || a.GrowAttr? || a.GrowPi? {
      ExtraNames(m, r, a, c);
    } else if a.PopAttr? || a.PopPi? || a.AbortPi? {
      DropExtraNames(m);
    } else if a.CloseSelf? || a.CloseEnd? {
      CloseNames(m.(regs := r));
    }
  }

  ghost predicate Sound(m: Machine) {
    Fits(m) && NamesFit(m)
  }

  lemma StartSound(room: nat)
    requires room > 0
    ensures Sound(Start(room))
  {
  }

  /** As long as no error is returned the stack is what the state says it is. */
  lemma StepSound(m: Machine, b: Byte)
    requires Sound(m)
    ensures !Negative(Step(m, b).ret) ==> Sound(Step(m, b).m)
  {
    StepFits(m, b);
    hide OnByte, Perform, RegsFit, ActionFits, Fits;
    if b != NUL && m.ignore != b {
      var m' := m.(ignore := if b == 13 then 10 else 0);
      var c: Byte := if b == 13 then 10 else b;
      TableFits(m'.regs, c) by { FitsRegs(m); }
      if OnByte(m'.regs, c).React? {
        IgnoreFits(m, m'.ignore);
        PerformNames(m', OnByte(m'.regs, c).regs, OnByte(m'.regs, c).action, c);
      }
    }
  }

  lemma FitsRegs(m: Machine)
    requires Fits(m)
    ensures RegsFit(m.regs)
  {
  }

  lemma IgnoreFits(m: Machine, ignore: Byte)
    requires Fits(m)
    ensures Fits(m.(ignore := ignore))
  {
  }

  // ---------------------------------------------------------------- documents

  datatype Event = Opened(name: Name) | Closed(name: Name)

  /** The elements whose start has been reported: all open ones but one whose name is still being read. */
  function Started(m: Machine): seq<Name> {
    if m.regs.state == Elem(0) && m.open != [] then Front(m.open) else m.open
  }

  /** What the return code reports: the start of the innermost element, or its end; the end carries the
      name in the end tag where there was one. */
  function Reported(m: Machine, o: Outcome): seq<Event> {
    if o.ret == ElemStart && o.m.open != [] then [Opened(Last(o.m.open))]
    else if o.ret == ElemEnd && m.open != [] then
      [Closed(if m.regs.state == Etag(1) then m.tag else Last(m.open))]
    else []
  }

  /** The stack of names after the events; none if an end does not name the innermost open element. */
  function Replay(events: seq<Event>): Option<seq<Name>> {
    if events == [] then Some([])
    else
      var before := Replay(events[..|events| - 1]);
      if before.None? then None
      else
        match events[|events| - 1]
        case Opened(n) => Some(before.value + [n])
        case Closed(n) => if before.value != [] && Last(before.value) == n then Some(Front(before.value)) else None
  }

  lemma ReplayNext(events: seq<Event>, e: Event, names: seq<Name>)
    requires Replay(events) == Some(names)
    ensures e.Opened? ==> Replay(events + [e]) == Some(names + [e.name])
    ensures e.Closed? && names != [] && Last(names) == e.name ==> Replay(events + [e]) == Some(Front(names))
  {
    assert (events + [e])[..|events|] == events;
  }

  /** What a helper does to the started elements is what the return code reports. */
  lemma PerformReports(m: Machine, r: Regs, a: Action, c: Byte, events: seq<Event>)
    requires Fits(m) && ActionFits(m.regs, r, a) && Replay(events) == Some(Started(m))
    ensures var o := Perform(m.(regs := r), a, c);
      !Negative(o.ret) ==> Replay(events + Reported(m, o)) == Some(Started(o.m))
  {
    var o := Perform(m.(regs := r), a, c);
    hide RegsFit, CodePoint, Accepted, SaysXml, Depth, Replay;
    NoSuffix(events);
    if !Negative(o.ret) && Reported(m, o) != [] {
      ReplayNext(events, Reported(m, o)[0], Started(m));
      assert Reported(m, o) == [Reported(m, o)[0]];
      if a.CloseEnd? { assert m.tag == Last(m.open); }
      if a.Give? { assert m.open == Front(m.open) + [Last(m.open)]; }
    }
  }

  lemma StepReports(m: Machine, b: Byte, events: seq<Event>)
    requires Fits(m) && Replay(events) == Some(Started(m))
    ensures !Negative(Step(m, b).ret) ==> Replay(events + Reported(m, Step(m, b))) == Some(Started(Step(m, b).m))
  {
    hide OnByte, Perform, RegsFit, ActionFits, Fits, Replay;
    NoSuffix(events);
    if b != NUL && m.ignore != b {
      var m' := m.(ignore := if b == 13 then 10 else 0);
      var c: Byte := if b == 13 then 10 else b;
      TableFits(m'.regs, c) by { FitsRegs(m); }
      if OnByte(m'.regs, c).React? {
        IgnoreFits(m, m'.ignore);
        PerformReports(m', OnByte(m'.regs, c).regs, OnByte(m'.regs, c).action, c, events);
      }
    }
  }

  datatype Progress = Progress(m: Machine, events: seq<Event>, ret: Ret)

  /** yxml_parse on one byte after the other, up to the first error. */
  function Feed(room: nat, bytes: seq<Byte>): Progress {
    if bytes == [] then Progress(Start(room), [], Ok)
    else
      var p := Feed(room, bytes[..|bytes| - 1]);
      if Negative(p.ret) then p
      else
        var o := Step(p.m, bytes[|bytes| - 1]);
        Progress(o.m, p.events + (if Negative(o.ret) then [] else Reported(p.m, o)), o.ret)
  }

  /** On every byte stream up to the first error: the stack is the list of the open elements, plus the
      attribute or instruction being read; what has been reported is well nested and has opened exactly
      the elements on the stack. */
  lemma {:induction false} StreamsAreSound(room: nat, bytes: seq<Byte>)
    requires room > 0
    ensures var p := Feed(room, bytes);
      && Replay(p.events).Some?
      && (!Negative(p.ret) ==> Sound(p.m) && Replay(p.events) == Some(Started(p.m)))
  {
    hide Sound, Replay;
    if bytes == [] {
      StartSound(room);
      ReplayEmpty();
    } else {
      var before := Feed(room, bytes[..|bytes| - 1]);
      StreamsAreSound(room, bytes[..|bytes| - 1]);
      if !Negative(before.ret) {
        StepSound(before.m, bytes[|bytes| - 1]);
        StepReports(before.m, bytes[|bytes| - 1], before.events) by { SoundFits(before.m); }
        NoSuffix(before.events);
      }
    }
  }

  lemma ReplayEmpty()
    ensures Replay([]) == Some([])
  {
  }

  lemma SoundFits(m: Machine)
    requires Sound(m)
    ensures Fits(m)
  {
  }

  /** A document that yxml_eof accepts has closed every element it has opened, and its bytes were all read. */
  lemma AcceptedDocuments(room: nat, bytes: seq<Byte>)
    requires room > 0 && !Negative(Feed(room, bytes).ret) && Eof(Feed(room, bytes).m) == Ok
    ensures Replay(Feed(room, bytes).events) == Some([])
  {
    StreamsAreSound(room, bytes);
  }

  /** The byte that ends an end tag is accepted if and only if the tag names the innermost open element
      (well-formedness constraint in section 3 of XML 1.0). */
  lemma EndTagMatches(m: Machine, b: Byte)
    requires Sound(m) && m.regs.state == Etag(1) && (IsSP(b) || b == Ch('>')) && m.ignore != b
    ensures Step(m, b).ret == (if m.tag == Last(m.open) then ElemEnd else Eclose)
  {
    assert m.tag == Last(m.open) <==> |m.tag| == |Last(m.open)|;
  }

  /** White space of XML 1.0, section 2.3. */
  predicate White(b: Byte) { IsSP(b) || b == 13 }

  /** yxml_parse on one byte after the other from a given machine, up to the first error. */
  function Onward(m: Machine, bytes: seq<Byte>): Outcome {
    if bytes == [] then Outcome(m, Ok)
    else
      var o := Onward(m, bytes[..|bytes| - 1]);
      if Negative(o.ret) then o else Step(o.m, bytes[|bytes| - 1])
  }

  lemma OneWhite(m: Machine, b: Byte)
    requires White(b) && (m.regs.state == Etag(2) || m.regs.state == Misc(3))
    ensures Step(m, b).ret == Ok && Step(m, b).m.regs == m.regs && Step(m, b).m.open == m.open
    ensures Step(m, b).m.ignore == 0 || Step(m, b).m.ignore == 10
  {
  }

  lemma FirstWhite(m: Machine, b: Byte)
    requires Sound(m) && White(b) && m.regs.state == Etag(1) && m.tag == Last(m.open) && m.ignore == 0
    ensures var o := Step(m, b);
      && o.ret == ElemEnd && (o.m.ignore == 0 || o.m.ignore == 10)
      && o.m.regs.state == if |m.open| > 1 then Etag(2) else Misc(3)
  {
  }

  lemma {:induction false} MoreWhite(m: Machine, w: seq<Byte>)
    requires Sound(m) && m.regs.state == Etag(1) && m.tag == Last(m.open) && m.ignore == 0
    requires w != [] && forall i :: 0 <= i < |w| ==> White(w[i])
    ensures var o := Onward(m, w);
      && !Negative(o.ret) && (o.m.ignore == 0 || o.m.ignore == 10)
      && o.m.regs.state == if |m.open| > 1 then Etag(2) else Misc(3)
    decreases |w|
  {
    hide Step, Sound;
    var front := w[..|w| - 1];
    if front == [] {
      assert Onward(m, front) == Outcome(m, Ok);
      FirstWhite(m, w[0]);
    } else {
      MoreWhite(m, front);
      OneWhite(Onward(m, front).m, w[|w| - 1]);
    }
  }

  lemma TagEnds(m: Machine)
    requires (m.regs.state == Etag(2) || m.regs.state == Misc(3)) && (m.ignore == 0 || m.ignore == 10)
    ensures Step(m, Ch('>')).ret == (if m.regs.state == Etag(2) then Ok else Esyn)
  {
  }

  /** White space before the '>' of an end tag, any number of bytes of any kind, is part of the grammar (production 42
      of XML 1.0), but of the root element's end tag it is refused: closing the last element sets the state to misc3,
      which takes the place of etag2. For every other element it is accepted. */
  lemma SpaceInEndTag(m: Machine, w: seq<Byte>)
    requires Sound(m) && m.regs.state == Etag(1) && m.tag == Last(m.open) && m.ignore == 0
    requires w != [] && forall i :: 0 <= i < |w| ==> White(w[i])
    ensures Onward(m, w + [Ch('>')]).ret == (if |m.open| > 1 then Ok else Esyn)
  {
    hide Step, Sound;
    MoreWhite(m, w);
    TagEnds(Onward(m, w).m);
    assert (w + [Ch('>')])[..|w|] == w;
  }

  lemma FeedNext(room: nat, bytes: seq<Byte>, b: Byte)
    requires !Negative(Feed(room, bytes).ret)
    ensures var p, o := Feed(room, bytes), Step(Feed(room, bytes).m, b);
      Feed(room, bytes + [b]) == Progress(o.m, p.events + (if Negative(o.ret) then [] else Reported(p.m, o)), o.ret)
  {
    assert (bytes + [b])[..|bytes|] == bytes;
  }

  function Reading(state: St, open: seq<Name>, tag: Name): Machine {
    Machine(Regs(state, StString, 0, []), 0, open, [], tag, [], 16)
  }

  /** Reading the bytes leads to the machine without an error. */
  ghost predicate Leads(bytes: seq<Byte>, m: Machine) {
    !Negative(Feed(16, bytes).ret) && Feed(16, bytes).m == m
  }

  lemma LeadsOn(bytes: seq<Byte>, m: Machine, b: Byte, o: Outcome)
    requires Leads(bytes, m) && Step(m, b) == o && !Negative(o.ret)
    ensures Leads(bytes + [b], o.m)
  {
    FeedNext(16, bytes, b);
  }

  /** "<a>" and "<a></a" */
  const ELEMENT: seq<Byte> := [] + [60] + [97] + [62]

  const TAG: seq<Byte> := ELEMENT + [60] + [47] + [97]

  lemma ReadsElement()
    ensures Leads(ELEMENT, Reading(Misc(2), [[97]], []))
  {
    FeedNothing(16);
    ElementStarts();
    assert Leads([], Start(16));
    hide Step, Leads;
    LeadsOn([], Start(16), 60, Outcome(Reading(Le(0), [], []), Ok));
    LeadsOn([] + [60], Reading(Le(0), [], []), 97, Outcome(Reading(Elem(0), [[97]], []), Ok));
    LeadsOn([] + [60] + [97], Reading(Elem(0), [[97]], []), 62, Outcome(Reading(Misc(2), [[97]], []), ElemStart));
  }

  lemma ReadsEndTag()
    ensures Leads(TAG, Reading(Etag(1), [[97]], [97]))
  {
    ReadsElement();
    ElementEnds();
    hide Step, Leads, ELEMENT;
    LeadsOn(ELEMENT, Reading(Misc(2), [[97]], []), 60, Outcome(Reading(Le(2), [[97]], []), Ok));
    LeadsOn(ELEMENT + [60], Reading(Le(2), [[97]], []), 47, Outcome(Reading(Etag(0), [[97]], []), Ok));
    LeadsOn(ELEMENT + [60] + [47], Reading(Etag(0), [[97]], []), 97, Outcome(Reading(Etag(1), [[97]], [97]), Ok));
  }

  lemma ElementStarts()
    ensures Step(Start(16), 60) == Outcome(Reading(Le(0), [], []), Ok)
    ensures Step(Reading(Le(0), [], []), 97) == Outcome(Reading(Elem(0), [[97]], []), Ok)
    ensures Step(Reading(Elem(0), [[97]], []), 62) == Outcome(Reading(Misc(2), [[97]], []), ElemStart)
  {
    hide *;
    OpensTag();
    BeginsName();
    EndsName();
  }

  lemma OpensTag()
    ensures Step(Start(16), 60) == Outcome(Reading(Le(0), [], []), Ok)
  {
    hide OnElem, OnLess, OnString, OnAttr, OnCdata, OnComment, OnDoctype, OnMark, OnPi, OnDeclaration, OnVersion, OnEncoding, OnStandalone;
  }

  lemma BeginsName()
    ensures Step(Reading(Le(0), [], []), 97) == Outcome(Reading(Elem(0), [[97]], []), Ok)
  {
    hide OnElem, OnMisc, OnString, OnAttr, OnCdata, OnComment, OnDoctype, OnMark, OnPi, OnDeclaration, OnVersion, OnEncoding, OnStandalone;
    assert Depth(Reading(Elem(0), [], [])) == 0;
  }

  lemma EndsName()
    ensures Step(Reading(Elem(0), [[97]], []), 62) == Outcome(Reading(Misc(2), [[97]], []), ElemStart)
  {
    hide OnLess, OnMisc, OnString, OnAttr, OnCdata, OnComment, OnDoctype, OnMark, OnPi, OnDeclaration, OnVersion, OnEncoding, OnStandalone;
  }

  lemma ElementEnds()
    ensures Step(Reading(Misc(2), [[97]], []), 60) == Outcome(Reading(Le(2), [[97]], []), Ok)
    ensures Step(Reading(Le(2), [[97]], []), 47) == Outcome(Reading(Etag(0), [[97]], []), Ok)
    ensures Step(Reading(Etag(0), [[97]], []), 97) == Outcome(Reading(Etag(1), [[97]], [97]), Ok)
  {
    hide OnString, OnAttr, OnCdata, OnComment, OnDoctype, OnMark, OnPi, OnDeclaration, OnVersion, OnEncoding, OnStandalone;
  }

  /** "<a></a >" is a document, but the automaton refuses its last byte; "<a></a>" it accepts. */
  lemma RootSpaceRefused()
    ensures Feed(16, TAG + [32] + [62]).ret == Esyn
    ensures !Negative(Feed(16, TAG + [62]).ret) && Eof(Feed(16, TAG + [62]).m) == Ok
  {
    ReadsEndTag();
    var m := Reading(Etag(1), [[97]], [97]);
    EndOfRoot(m);
    hide Step, TAG;
    FeedNext(16, TAG, 62);
    FeedNext(16, TAG, 32);
    hide Feed;
    FeedNext(16, TAG + [32], 62);
  }

  lemma EndOfRoot(m: Machine)
    requires m == Reading(Etag(1), [[97]], [97])
    ensures Step(m, 62).ret == ElemEnd && Step(m, 62).m.regs.state == Misc(3)
    ensures Step(m, 32).ret == ElemEnd && Step(Step(m, 32).m, 62).ret == Esyn
  {
    hide OnLess, OnString, OnAttr, OnCdata, OnComment, OnDoctype, OnMark, OnPi, OnDeclaration, OnVersion, OnEncoding, OnStandalone;
  }

  lemma FeedNothing(room: nat)
    ensures Feed(room, []) == Progress(Start(room), [], Ok)
  {
  }

  // ---------------------------------------------------------------- a reference to half a character

  function InReference(state: St, reference: seq<Byte>): Machine {
    Reading(state, [[97]], []).(reference := reference)
  }

  lemma ReferenceStarts()
    ensures Step(Reading(Misc(2), [[97]], []), 38) == Outcome(InReference(Misc2a, []), Ok)
  {
    hide OnElem, OnLess, OnString, OnAttr, OnCdata, OnComment, OnDoctype, OnMark, OnPi, OnDeclaration, OnVersion, OnEncoding;
  }

  lemma ReferenceGrows(reference: seq<Byte>, b: Byte)
    requires IsRef(b) && |reference| < 7
    ensures Step(InReference(Misc2a, reference), b) == Outcome(InReference(Misc2a, reference + [b]), Ok)
  {
    hide OnElem, OnLess, OnString, OnAttr, OnCdata, OnComment, OnDoctype, OnMark, OnPi, OnDeclaration, OnVersion, OnEncoding;
  }

  const SURROGATE: seq<Byte> := [] + [35] + [120] + [68] + [56] + [48] + [48]

  lemma SurrogateIsNumber()
    ensures CodePoint(SURROGATE) == 0xD800
  {
    var d := [68, 56, 48, 48];
    assert SURROGATE[2..] == d;
    assert d[1..] == [56, 48, 48] && d[1..][1..] == [48, 48] && d[1..][1..][1..] == [48];
    assert Numeral([48], 16, 0xD80) == Numeral([48][1..], 16, 0xD800) == 0xD800;
    assert Numeral([48, 48], 16, 0xD8) == 0xD800 && Numeral([56, 48, 48], 16, 0xD) == 0xD800;
  }

  lemma ReferenceEnds()
    ensures Step(InReference(Misc2a, SURROGATE), 59).ret == Content
  {
    SurrogateIsNumber();
    hide CodePoint, SURROGATE;
    hide OnElem, OnLess, OnString, OnAttr, OnCdata, OnComment, OnDoctype, OnMark, OnPi, OnDeclaration, OnVersion, OnEncoding;
  }

  /** One more byte of the reference. */
  lemma ReferenceByte(text: seq<Byte>, reference: seq<Byte>, b: Byte)
    requires Leads(text, InReference(Misc2a, reference)) && IsRef(b) && |reference| < 7
    ensures Leads(text + [b], InReference(Misc2a, reference + [b]))
  {
    ReferenceGrows(reference, b);
    hide *;
    LeadsOn(text, InReference(Misc2a, reference), b, Outcome(InReference(Misc2a, reference + [b]), Ok));
  }

  lemma ReadsReference()
    ensures Leads(ELEMENT + [38], InReference(Misc2a, []))
  {
    ReadsElement();
    ReferenceStarts();
    hide Step, Leads, InReference, ELEMENT;
    LeadsOn(ELEMENT, Reading(Misc(2), [[97]], []), 38, Outcome(InReference(Misc2a, []), Ok));
  }

  /** "<a>&#xD800;" is taken for content, although XML has no such character. */
  lemma SurrogateAccepted()
    ensures Feed(16, ELEMENT + [38] + [35] + [120] + [68] + [56] + [48] + [48] + [59]).ret == Content && !XmlChar(0xD800)
  {
    hide Step, Leads, ELEMENT, InReference, Feed;
    var text := ELEMENT + [38];
    ReadsReference();
    ReferenceByte(text, [], 35);
    ReferenceByte(text + [35], [] + [35], 120);
    ReferenceByte(text + [35] + [120], [] + [35] + [120], 68);
    ReferenceByte(text + [35] + [120] + [68], [] + [35] + [120] + [68], 56);
    ReferenceByte(text + [35] + [120] + [68] + [56], [] + [35] + [120] + [68] + [56], 48);
    ReferenceByte(text + [35] + [120] + [68] + [56] + [48], [] + [35] + [120] + [68] + [56] + [48], 48);
    ReferenceEnds();
    LastByte(text + [35] + [120] + [68] + [56] + [48] + [48], InReference(Misc2a, SURROGATE), 59);
  }

  lemma LastByte(bytes: seq<Byte>, m: Machine, b: Byte)
    requires Leads(bytes, m)
    ensures Feed(16, bytes + [b]).ret == Step(m, b).ret
  {
    FeedNext(16, bytes, b);
  }
}
