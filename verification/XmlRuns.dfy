// The parts of XML documents, and that the automaton takes each of them and reports what the document says.
module XmlRuns {
  import opened Bytes
  import opened Sequences
  import opened XmlStates
  import opened XmlAutomaton
  import opened XmlDocuments
  import opened XmlTaken
  import opened XmlSteps

  // ---------------------------------------------------------------- bytes and their classes

  lemma ByteClasses(b: Byte)
    ensures Clean(b) ==> b != NUL && b != 13
    ensures b == 0x20 || b == 0x09 || b == 0x0A ==> IsSP(b)
    ensures NameStart(b) ==> IsNameStart(b) && IsName(b) && b != NUL && b != 13
    ensures NameByte(b) ==> IsName(b) && b != NUL && b != 13
    ensures Digit(b) ==> IsNum(b) && IsRef(b) && b != NUL && b != 13
    ensures HexDigitOf(b) ==> IsHex(b) && IsRef(b) && b != NUL && b != 13
    ensures Letter(b) ==> IsAlpha(b) && IsRef(b) && b != NUL && b != 13
  {
  }

  // ---------------------------------------------------------------- white space

  /** States that white space does not leave. */
  predicate Idles(s: St) {
    || s == Misc(0) || s == Misc(1) || s == Misc(3) || s == Elem(1) || s == Etag(2) || s == Attr(1) || s == Attr(2)
    || s == XmlDecl(3) || s == XmlDecl(5) || s == XmlDecl(7) || s == XmlDecl(8)
    || s == Ver(0) || s == Ver(1) || s == Enc(0) || s == Enc(1) || s == Std(0) || s == Std(1)
  }

  lemma IdleReacts(r: Regs, c: Byte)
    requires Idles(r.state) && IsSP(c)
    ensures OnByte(r, c) == React(r, Give(Ok))
  {
    hide OnString, OnCdata, OnComment, OnDoctype, OnLess, OnMark, OnPi, OnDeclaration;
  }

  lemma {:induction false} Waits(m: Machine, w: seq<Byte>)
    requires Idles(m.regs.state) && Blanks(w) && m.ignore == 0
    ensures Trip(m, w, m, [])
    decreases |w|
  {
    hide *;
    if w == [] {
      Nowhere(m);
    } else {
      FirstBlank(w);
      IdleReacts(m.regs, w[0]);
      IsPlain(m, w[0]);
      Silent(m, w[0], m.regs);
      assert m.(regs := m.regs) == m;
      Waits(m, w[1..]);
      assert [w[0]] + w[1..] == w;
      QuietFirst(m, [w[0]], m, w[1..], m, []);
    }
  }

  lemma FirstBlank(w: seq<Byte>)
    requires Blanks(w) && w != []
    ensures IsSP(w[0]) && w[0] != NUL && w[0] != 13 && Blanks(w[1..])
  {
  }

  lemma IsPlain(m: Machine, c: Byte)
    requires m.ignore == 0 && c != NUL && c != 13
    ensures Plainly(m, c)
  {
  }

  // ---------------------------------------------------------------- names

  lemma NameGoesOn(s: seq<Byte>)
    requires NameBytes(s) && s != []
    ensures IsName(s[0]) && s[0] != NUL && s[0] != 13 && NameBytes(s[1..])
  {
    ByteClasses(s[0]);
    hide NameByte;
    forall i | 0 <= i < |s[1..]|
      ensures NameByte(s[1..][i])
    {
      assert s[1..][i] == s[i + 1];
    }
  }

  /** One more byte of the name of the element, attribute or instruction. */
  function Longer(m: Machine, s: seq<Byte>): Machine {
    match m.regs.state
    case Elem(0) => if m.open == [] then m else m.(open := Front(m.open) + [Last(m.open) + s])
    case _ => if |m.extra| == 1 then m.(extra := [m.extra[0] + s]) else m
  }

  predicate ReadsName(m: Machine) {
    || (m.regs.state == Elem(0) && m.open != [])
    || ((m.regs.state == Attr(0) || m.regs.state == Pi(1)) && |m.extra| == 1)
  }

  lemma NameReacts(m: Machine, c: Byte)
    requires ReadsName(m) && IsName(c)
    ensures OnByte(m.regs, c) ==
      React(m.regs, if m.regs.state == Elem(0) then GrowElem else if m.regs.state == Attr(0) then GrowAttr else GrowPi)
  {
    hide OnString, OnCdata, OnComment, OnDoctype, OnLess, OnMark, OnMisc, OnDeclaration, OnVersion, OnEncoding, OnStandalone;
    hide IsName, IsSP;
  }

  lemma NameGrows(m: Machine, c: Byte)
    requires ReadsName(m) && IsName(c) && Plainly(m, c) && Roomy(m, 1)
    ensures Step(m, c) == Outcome(Longer(m, [c]), Ok) && Trip(m, [c], Longer(m, [c]), [])
    ensures ReadsName(Longer(m, [c])) && Longer(m, [c]).ignore == 0
  {
    NameReacts(m, c);
    var a := if m.regs.state == Elem(0) then GrowElem else if m.regs.state == Attr(0) then GrowAttr else GrowPi;
    StepIs(m, c, m.regs, a);
    assert m.(regs := m.regs) == m;
    Extras(m, c);
    One(m, c) by { hide Step, OnByte, Perform, Depth; assert Perform(m, a, c).ret == Ok by { GrowsOk(m, a, c); } }
    GrowsOk(m, a, c);
    hide OnByte, Depth, Flat, IsName;
  }

  lemma Extras(m: Machine, c: Byte)
    ensures |m.extra| == 1 ==> Grown(m.extra, c) == [m.extra[0] + [c]]
  {
  }

  lemma GrowsOk(m: Machine, a: Action, c: Byte)
    requires Roomy(m, 1) && (a == GrowElem || a == GrowAttr || a == GrowPi)
    ensures Perform(m, a, c) == Outcome(
      if a == GrowElem then m.(open := Grown(m.open, c)) else m.(extra := Grown(m.extra, c)), Ok)
  {
    hide Depth, Grown;
  }

  lemma {:induction false} NameIsRead(m: Machine, s: seq<Byte>)
    requires ReadsName(m) && NameBytes(s) && m.ignore == 0 && Roomy(m, |s|)
    ensures Trip(m, s, Longer(m, s), [])
    decreases |s|
  {
    hide *;
    LongerIs(m, s);
    if s == [] {
      Nowhere(m);
    } else {
      NameGoesOn(s);
      IsPlain(m, s[0]);
      LessRoom(m, |s|, 1);
      NameGrows(m, s[0]);
      var m1 := Longer(m, [s[0]]);
      RoomLeft(m, [s[0]], m1, [], |s| - 1);
      NameIsRead(m1, s[1..]);
      assert [s[0]] + s[1..] == s;
      QuietFirst(m, [s[0]], m1, s[1..], Longer(m1, s[1..]), []);
    }
  }

  lemma LongerIs(m: Machine, s: seq<Byte>)
    requires ReadsName(m)
    ensures s == [] ==> Longer(m, s) == m
    ensures s != [] ==> Longer(Longer(m, [s[0]]), s[1..]) == Longer(m, s)
  {
    if s != [] { assert [s[0]] + s[1..] == s; }
    if m.regs.state == Elem(0) {
      var n := Last(m.open);
      if s == [] {
        NoSuffix(n);
        assert Front(m.open) + [n] == m.open;
      } else {
        assert n + [s[0]] + s[1..] == n + s;
        var open' := Front(m.open) + [n + [s[0]]];
        assert Front(open') == Front(m.open) && Last(open') == n + [s[0]];
      }
    } else {
      var n := m.extra[0];
      if s == [] {
        NoSuffix(n);
        assert [n] == m.extra;
      } else {
        assert n + [s[0]] + s[1..] == n + s;
      }
    }
  }

  // ---------------------------------------------------------------- fixed strings

  lemma {:induction false} Spells(m: Machine, s: seq<Byte>)
    requires m.regs.state == StString && m.regs.literal == s != [] && m.ignore == 0 && NUL !in s && 13 !in s
    ensures Trip(m, s, m.(regs := m.regs.(state := m.regs.next, literal := [])), [])
    decreases |s|
  {
    hide *;
    var r := m.regs.(literal := s[1..], state := if s[1..] == [] then m.regs.next else StString);
    StringReacts(m.regs);
    assert s[0] in s;
    IsPlain(m, s[0]);
    Silent(m, s[0], r);
    assert [s[0]] + s[1..] == s;
    if s[1..] == [] {
      assert [s[0]] == s;
    } else {
      var m1 := m.(regs := r);
      Spells(m1, s[1..]);
      QuietFirst(m, [s[0]], m1, s[1..], m.(regs := m.regs.(state := m.regs.next, literal := [])), []);
    }
  }

  lemma StringReacts(r: Regs)
    requires r.state == StString && r.literal != []
    ensures OnByte(r, r.literal[0]) ==
      React(r.(literal := r.literal[1..], state := if r.literal[1..] == [] then r.next else StString), Give(Ok))
  {
    StringRow(r, r.literal[0]);
    hide OnByte;
  }

  // ---------------------------------------------------------------- references

  lemma {:induction false} DataConcat(ret: Ret, a: seq<Byte>, b: seq<Byte>)
    ensures Data(ret, a + b) == Data(ret, a) + Data(ret, b)
  {
    if a == [] {
      NoPrefix(b);
      NoPrefix(Data(ret, b));
    } else {
      assert (a + b)[0] == a[0] && (a + b)[1..] == a[1..] + b;
      DataConcat(ret, a[1..], b);
    }
  }

  lemma {:induction false} NumeralAppends(s: seq<Byte>, c: Byte, base: nat, value: nat)
    requires base == 10 || base == 16
    requires forall i :: 0 <= i < |s| ==> (if base == 10 then Digit(s[i]) else HexDigitOf(s[i]))
    requires if base == 10 then Digit(c) else HexDigitOf(c)
    ensures Numeral(s + [c], base, value) == Numeral(s, base, value) * base + HexValueOf(c) && HexValueOf(c) >= 0
    decreases |s|
  {
    if s == [] {
      assert [c][1..] == [];
      assert Numeral([c][1..], base, value * base + HexValueOf(c)) == value * base + HexValueOf(c);
    } else {
      assert (s + [c])[0] == s[0] && (s + [c])[1..] == s[1..] + [c];
      NumeralAppends(s[1..], c, base, value * base + HexValueOf(s[0]));
    }
  }

  lemma {:induction false} NumeralIsNumber(s: seq<Byte>, base: nat)
    requires base == 10 || base == 16
    requires forall i :: 0 <= i < |s| ==> (if base == 10 then Digit(s[i]) else HexDigitOf(s[i]))
    ensures Numeral(s, base, 0) == NumberOf(s, base) >= 0
    decreases |s|
  {
    if s != [] {
      var front := s[..|s| - 1];
      assert s == front + [s[|s| - 1]];
      NumeralIsNumber(front, base);
      NumeralAppends(front, s[|s| - 1], base, 0);
      hide Numeral, HexValueOf;
    }
  }

  lemma Entities()
    ensures Text("lt") == [0x6C, 0x74] && Text("gt") == [0x67, 0x74] && Text("amp") == [0x61, 0x6D, 0x70]
    ensures Text("apos") == [0x61, 0x70, 0x6F, 0x73] && Text("quot") == [0x71, 0x75, 0x6F, 0x74]
  {
    Pair('l', 't');
    Pair('g', 't');
    Three('a', 'm', 'p');
    Four('a', 'p', 'o', 's');
    Four('q', 'u', 'o', 't');
    hide Text;
  }

  lemma Pair(a: char, b: char)
    requires a as int < 256 && b as int < 256
    ensures Text([a, b]) == [a as int, b as int]
  {
    assert [a, b][1..] == [b] && [b][1..] == [];
    assert Text([b]) == [b as int] + Text([]);
  }

  lemma Three(a: char, b: char, c: char)
    requires a as int < 256 && b as int < 256 && c as int < 256
    ensures Text([a, b, c]) == [a as int, b as int, c as int]
  {
    assert [a, b, c][1..] == [b, c];
    Pair(b, c);
  }

  lemma Four(a: char, b: char, c: char, d: char)
    requires a as int < 256 && b as int < 256 && c as int < 256 && d as int < 256
    ensures Text([a, b, c, d]) == [a as int, b as int, c as int, d as int]
  {
    assert [a, b, c, d][1..] == [b, c, d];
    Three(b, c, d);
  }

  lemma EntityPoint(r: Reference)
    requires !r.Decimal? && !r.Hexadecimal?
    ensures CodePoint(ReferenceName(r)) == CodeOf(r) && 0 < CodeOf(r) < 0x80
  {
    Entities();
    hide Text;
  }

  lemma DecimalPoint(digits: seq<Byte>)
    requires digits != [] && forall i :: 0 <= i < |digits| ==> Digit(digits[i])
    ensures CodePoint([0x23] + digits) == CodeOf(Decimal(digits))
  {
    NumeralIsNumber(digits, 10);
    assert ([0x23] + digits)[1] == digits[0] && ([0x23] + digits)[1..] == digits;
    hide Numeral, NumberOf, Text;
  }

  lemma HexadecimalPoint(digits: seq<Byte>)
    requires digits != [] && forall i :: 0 <= i < |digits| ==> HexDigitOf(digits[i])
    ensures CodePoint([0x23, 0x78] + digits) == CodeOf(Hexadecimal(digits))
  {
    NumeralIsNumber(digits, 16);
    assert ([0x23, 0x78] + digits)[1] == 0x78 && ([0x23, 0x78] + digits)[2..] == digits;
    hide Numeral, NumberOf, Text;
  }

  /** The number that the parser makes of a reference is that of its character. */
  lemma ReferencePoint(r: Reference)
    requires SpelledOut(r)
    ensures CodePoint(ReferenceName(r)) == CodeOf(r)
  {
    match r
    case Decimal(digits) => DecimalPoint(digits);
    case Hexadecimal(digits) => HexadecimalPoint(digits);
    case _ => EntityPoint(r);
  }

  lemma CharacterAccepted(r: Reference)
    requires TakenCharacter(CodeOf(r))
    ensures Accepted(CodeOf(r)) && SetUtf8(CodeOf(r)) == Encoded(CodeOf(r))
  {
    hide CodeOf;
  }

  lemma ReferenceBytes(r: Reference)
    requires SpelledOut(r)
    ensures forall i :: 0 <= i < |ReferenceName(r)| ==>
      IsRef(ReferenceName(r)[i]) && ReferenceName(r)[i] != NUL && ReferenceName(r)[i] != 13
  {
  }

  ghost predicate RefBytes(s: seq<Byte>) {
    forall i :: 0 <= i < |s| ==> IsRef(s[i]) && s[i] != NUL && s[i] != 13
  }

  predicate AtReference(m: Machine) {
    (m.regs.state == Attr(4) || m.regs.state == Misc2a) && m.ignore == 0
  }

  lemma RefReacts(m: Machine, c: Byte)
    requires AtReference(m) && IsRef(c) && c != NUL && c != 13 && |m.reference| < 7
    ensures Trip(m, [c], m.(reference := m.reference + [c]), [])
  {
    if m.regs.state == Attr(4) { AttrRow(m.regs, c); } else { MiscRow(m.regs, c); }
    hide OnByte, IsRef;
    StepIs(m, c, m.regs, RefChar);
    assert m.(regs := m.regs) == m;
    One(m, c);
  }

  lemma RefBytesTail(s: seq<Byte>)
    requires RefBytes(s) && s != []
    ensures IsRef(s[0]) && s[0] != NUL && s[0] != 13 && RefBytes(s[1..])
  {
    hide IsRef;
  }

  lemma RefStays(m: Machine, c: Byte)
    requires AtReference(m)
    ensures AtReference(m.(reference := m.reference + [c]))
  {
  }

  lemma {:induction false} RefIsRead(m: Machine, s: seq<Byte>)
    requires AtReference(m) && RefBytes(s) && |m.reference| + |s| <= 7
    ensures Trip(m, s, m.(reference := m.reference + s), [])
    decreases |s|
  {
    hide *;
    if s == [] {
      NoSuffix(m.reference);
      Nowhere(m);
    } else {
      var m1 := m.(reference := m.reference + [s[0]]);
      RefBytesTail(s);
      RefReacts(m, s[0]);
      RefStays(m, s[0]);
      RefIsRead(m1, s[1..]);
      assert [s[0]] + s[1..] == s;
      Assoc(m.reference, [s[0]], s[1..]);
      QuietFirst(m, [s[0]], m1, s[1..], m.(reference := m.reference + s), []);
    }
  }

  /** Where text or an attribute value is read. */
  predicate InText(m: Machine) {
    (m.regs.state == Attr(3) || m.regs.state == Misc(2)) && m.ignore == 0
  }

  function TextRet(m: Machine): Ret {
    if m.regs.state == Attr(3) || m.regs.state == Attr(4) then AttrVal else Content
  }

  lemma RefStarts(m: Machine)
    requires InText(m)
    ensures Trip(m, [0x26], m.(regs := m.regs.(state := if m.regs.state == Attr(3) then Attr(4) else Misc2a), reference := []), [])
  {
    var r := m.regs.(state := if m.regs.state == Attr(3) then Attr(4) else Misc2a);
    if m.regs.state == Attr(3) { AttrRow(m.regs, 0x26); } else { MiscRow(m.regs, 0x26); }
    hide OnByte;
    StepIs(m, 0x26, r, RefStart);
    One(m, 0x26);
  }

  lemma RefEnds(m: Machine, r: Reference)
    requires AtReference(m) && m.reference == ReferenceName(r)
    requires CodePoint(ReferenceName(r)) == CodeOf(r) && Accepted(CodeOf(r)) && SetUtf8(CodeOf(r)) == Encoded(CodeOf(r))
    ensures Trip(m, [0x3B], m.(regs := m.regs.(state := if m.regs.state == Attr(4) then Attr(3) else Misc(2))),
                 Data(TextRet(m), Encoded(CodeOf(r))))
  {
    hide *;
    RefEndStep(m);
    TextIsNoError(m);
    RefTold(m);
    One(m, 0x3B);
  }

  lemma TextIsNoError(m: Machine)
    ensures !Negative(TextRet(m))
  {
  }

  lemma RefTold(m: Machine)
    requires AtReference(m) && Step(m, 0x3B).ret == TextRet(m)
    ensures Told(m, 0x3B) == Data(TextRet(m), SetUtf8(CodePoint(m.reference)))
  {
    hide Step, CodePoint, SetUtf8, Data;
  }

  lemma RefEndReacts(m: Machine)
    requires AtReference(m)
    ensures OnByte(m.regs, 0x3B) ==
      React(m.regs.(state := if m.regs.state == Attr(4) then Attr(3) else Misc(2)), RefEnd(TextRet(m)))
  {
    if m.regs.state == Attr(4) { AttrRow(m.regs, 0x3B); } else { MiscRow(m.regs, 0x3B); }
    hide OnByte;
  }

  lemma RefEndStep(m: Machine)
    requires AtReference(m)
    ensures Step(m, 0x3B) == Outcome(m.(regs := m.regs.(state := if m.regs.state == Attr(4) then Attr(3) else Misc(2))),
              if Accepted(CodePoint(m.reference)) then TextRet(m) else Eref)
  {
    RefEndReacts(m);
    hide OnByte, CodePoint, Accepted, TextRet;
    StepIs(m, 0x3B, m.regs.(state := if m.regs.state == Attr(4) then Attr(3) else Misc(2)), RefEnd(TextRet(m)));
  }

  /** The machine behind the ampersand. */
  function Referring(m: Machine): Machine {
    m.(regs := m.regs.(state := if m.regs.state == Attr(3) then Attr(4) else Misc2a), reference := [])
  }

  lemma ReferringIs(m: Machine, r: Reference)
    requires InText(m)
    ensures AtReference(Referring(m)) && Referring(m).reference == [] && TextRet(Referring(m)) == TextRet(m)
    ensures AtReference(Referring(m).(reference := ReferenceName(r)))
    ensures TextRet(Referring(m).(reference := ReferenceName(r))) == TextRet(m)
    ensures var m2 := Referring(m).(reference := ReferenceName(r));
      m2.(regs := m2.regs.(state := if m2.regs.state == Attr(4) then Attr(3) else Misc(2))) == m.(reference := ReferenceName(r))
    ensures WritePiece(Refer(r)) == [0x26] + (ReferenceName(r) + [0x3B])
    ensures RefBytes(ReferenceName(r)) && |ReferenceName(r)| <= 7 ==> RefBytes([] + ReferenceName(r))
  {
    NoPrefix(ReferenceName(r));
    hide ReferenceName;
  }

  lemma ReferenceFits(r: Reference)
    requires TakenReference(r)
    ensures RefBytes(ReferenceName(r)) && |ReferenceName(r)| <= 7 && SpelledOut(r) && TakenCharacter(CodeOf(r))
  {
    ReferenceBytes(r);
    hide CodeOf, ReferenceName, SpelledOut;
  }

  lemma ReferenceIsRead(m: Machine, r: Reference)
    requires InText(m) && TakenReference(r)
    ensures Trip(m, WritePiece(Refer(r)), m.(reference := ReferenceName(r)), Data(TextRet(m), Encoded(CodeOf(r))))
  {
    hide *;
    var name := ReferenceName(r);
    ReferenceFits(r);
    ReferencePoint(r);
    CharacterAccepted(r);
    ReferringIs(m, r);
    var m1 := Referring(m);
    var m2 := m1.(reference := name);
    RefStarts(m);
    ReferringStarts(m);
    RefIsRead(m1, name);
    NoPrefix(name);
    RefEnds(m2, r);
    QuietFirst(m1, name, m2, [0x3B], m.(reference := name), Data(TextRet(m), Encoded(CodeOf(r))));
    QuietFirst(m, [0x26], m1, name + [0x3B], m.(reference := name), Data(TextRet(m), Encoded(CodeOf(r))));
  }

  lemma ReferringStarts(m: Machine)
    ensures Referring(m) ==
      m.(regs := m.regs.(state := if m.regs.state == Attr(3) then Attr(4) else Misc2a), reference := [])
  {
  }

  // ---------------------------------------------------------------- text and attribute values

  lemma PlainText(m: Machine, b: Byte)
    requires m.regs.state == Misc(2) && m.ignore == 0 && TakenPiece(Plain(b))
    ensures Trip(m, [b], m, Data(Content, [b]))
  {
    MiscRow(m.regs, b);
    hide OnByte;
    Gives(m, b, m.regs, Content);
    assert m.(regs := m.regs) == m;
  }

  lemma PlainValue(m: Machine, b: Byte, q: Quote)
    requires m.regs.state == Attr(3) && m.regs.quote == QuoteMark(q) && m.ignore == 0 && TakenValue(Plain(b), q)
    ensures Trip(m, [b], m, Data(AttrVal, ValueOf(Plain(b))))
  {
    AttrRow(m.regs, b);
    hide OnByte;
    Gives(m, b, m.regs, AttrVal);
    assert m.(regs := m.regs) == m;
  }

  /** Only the reference that was read last may differ. */
  ghost predicate SameBut(m: Machine, m': Machine) {
    m' == m.(reference := m'.reference)
  }

  lemma ValueIsRead(m: Machine, p: Piece, q: Quote) returns (m': Machine)
    requires m.regs.state == Attr(3) && m.regs.quote == QuoteMark(q) && m.ignore == 0 && TakenValue(p, q)
    ensures Trip(m, WritePiece(p), m', Data(AttrVal, ValueOf(p))) && SameBut(m, m')
  {
    match p
    case Plain(b) =>
      m' := m;
      PlainValue(m, b, q);
      hide *;
    case Refer(r) =>
      m' := m.(reference := ReferenceName(r));
      ReferenceIsRead(m, r);
      hide Trip, ReferenceName, Encoded, CodeOf, TakenReference, WritePiece;
  }

  lemma {:induction false} ValuesAreRead(m: Machine, ps: seq<Piece>, q: Quote) returns (m': Machine)
    requires m.regs.state == Attr(3) && m.regs.quote == QuoteMark(q) && m.ignore == 0 && TakenValues(ps, q)
    ensures Trip(m, WritePieces(ps), m', Data(AttrVal, ValuesOf(ps))) && SameBut(m, m')
    decreases |ps|
  {
    hide Trip, ValueOf, WritePiece, TakenValue;
    if ps == [] {
      m' := m;
      Nowhere(m);
    } else {
      var m1 := ValueIsRead(m, ps[0], q);
      m' := ValuesAreRead(m1, ps[1..], q);
      Join(m, WritePiece(ps[0]), m1, Data(AttrVal, ValueOf(ps[0])), WritePieces(ps[1..]), m', Data(AttrVal, ValuesOf(ps[1..])));
      DataConcat(AttrVal, ValueOf(ps[0]), ValuesOf(ps[1..]));
    }
  }

  lemma TextIsRead(m: Machine, p: Piece) returns (m': Machine)
    requires m.regs.state == Misc(2) && m.ignore == 0 && TakenPiece(p)
    ensures Trip(m, WritePiece(p), m', Data(Content, TextOf(p))) && SameBut(m, m')
  {
    match p
    case Plain(b) =>
      m' := m;
      PlainText(m, b);
      hide *;
    case Refer(r) =>
      m' := m.(reference := ReferenceName(r));
      ReferenceIsRead(m, r);
      hide Trip, ReferenceName, Encoded, CodeOf, TakenReference, WritePiece;
  }
}
