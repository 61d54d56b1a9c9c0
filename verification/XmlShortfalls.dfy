// Where the XML parser falls short of the standard: for every document with one of those pieces it stops with an error
// or reports something else, so the documents it reads right are exactly the others.
module XmlShortfalls {
  import opened Bytes
  import opened Sequences
  import opened XmlStates
  import opened XmlAutomaton
  import opened XmlDocuments
  import opened XmlTaken
  import opened XmlSteps
  import opened XmlRuns
  import opened XmlMarkup
  import opened XmlInstructions
  import opened XmlElements
  import opened XmlProlog
  import opened XmlDeclaration
  import opened XmlReading

  // ---------------------------------------------------------------- going astray

  predicate Differ(a: seq<Report>, b: seq<Report>) {
    exists k :: 0 <= k < |a| && k < |b| && a[k] != b[k]
  }

  /** There is an error, or a report that is not the one to be expected. */
  ghost predicate Strays(m: Machine, bytes: seq<Byte>, reports: seq<Report>) {
    !Go(m, bytes).ok || Differ(Go(m, bytes).told, reports)
  }

  lemma {:induction false} GoSplits(m: Machine, a: seq<Byte>, b: seq<Byte>)
    ensures var w := Go(m, a);
      Go(m, a + b) == if w.ok then Way(Go(w.m, b).ok, Go(w.m, b).m, w.told + Go(w.m, b).told) else w
    decreases |a|
  {
    hide Step, Told;
    if a == [] {
      NoPrefix(b);
      NoPrefix(Go(m, b).told);
    } else {
      var o := Step(m, a[0]);
      assert (a + b)[0] == a[0] && (a + b)[1..] == a[1..] + b;
      GoSplits(o.m, a[1..], b);
      var w := Go(o.m, a[1..]);
      if !Negative(o.ret) && w.ok { Assoc(Told(m, a[0]), w.told, Go(w.m, b).told); }
    }
  }

  lemma DifferLonger(a: seq<Report>, b: seq<Report>, x: seq<Report>, y: seq<Report>)
    requires Differ(a, b)
    ensures Differ(a + x, b + y)
  {
    var k :| 0 <= k < |a| && k < |b| && a[k] != b[k];
    assert (a + x)[k] != (b + y)[k];
  }

  lemma DifferLater(out: seq<Report>, a: seq<Report>, b: seq<Report>)
    requires Differ(a, b)
    ensures Differ(out + a, out + b)
  {
    var k :| 0 <= k < |a| && k < |b| && a[k] != b[k];
    assert (out + a)[|out| + k] != (out + b)[|out| + k];
  }

  lemma StraysAhead(m: Machine, a: seq<Byte>, out1: seq<Report>, b: seq<Byte>, out2: seq<Report>)
    requires Strays(m, a, out1)
    ensures Strays(m, a + b, out1 + out2)
  {
    GoSplits(m, a, b);
    hide Go, Differ;
    var w := Go(m, a);
    if w.ok { DifferLonger(w.told, out1, Go(w.m, b).told, out2); }
  }

  lemma StraysLater(m: Machine, a: seq<Byte>, m1: Machine, out1: seq<Report>, b: seq<Byte>, out2: seq<Report>)
    requires Trip(m, a, m1, out1) && Strays(m1, b, out2)
    ensures Strays(m, a + b, out1 + out2)
  {
    GoSplits(m, a, b);
    hide Go, Differ;
    if Go(m1, b).ok { DifferLater(out1, Go(m1, b).told, out2); }
  }

  lemma StraysQuietly(m: Machine, a: seq<Byte>, m1: Machine, b: seq<Byte>, out: seq<Report>)
    requires Trip(m, a, m1, []) && Strays(m1, b, out)
    ensures Strays(m, a + b, out)
  {
    hide *;
    StraysLater(m, a, m1, [], b, out);
    NoPrefix(out);
  }

  lemma Stops(m: Machine, c: Byte, rest: seq<Byte>, reports: seq<Report>)
    requires Negative(Step(m, c).ret)
    ensures Strays(m, [c] + rest, reports)
  {
    hide Step, Negative;
    assert ([c] + rest)[0] == c;
  }

  // ---------------------------------------------------------------- references

  lemma EighthStops(m: Machine, c: Byte)
    requires AtReference(m) && IsRef(c) && c != NUL && c != 13 && |m.reference| >= 7
    ensures Step(m, c).ret == Eref
  {
    if m.regs.state == Attr(4) { AttrRow(m.regs, c); } else { MiscRow(m.regs, c); }
    hide OnByte, IsRef;
    StepIs(m, c, m.regs, RefChar);
  }

  lemma {:induction false} LongStrays(m: Machine, s: seq<Byte>, rest: seq<Byte>, reports: seq<Report>)
    requires AtReference(m) && RefBytes(s) && |m.reference| <= 7 < |m.reference| + |s|
    ensures Strays(m, s + rest, reports)
    decreases |s|
  {
    hide Strays, Step, Trip, IsRef;
    assert s == [s[0]] + s[1..];
    Assoc([s[0]], s[1..], rest);
    if |m.reference| == 7 {
      EighthStops(m, s[0]);
      Stops(m, s[0], s[1..] + rest, reports);
    } else {
      var m1 := m.(reference := m.reference + [s[0]]);
      RefReacts(m, s[0]);
      LongStrays(m1, s[1..], rest, reports);
      StraysQuietly(m, [s[0]], m1, s[1..] + rest, reports);
    }
  }

  lemma UnknownReference(r: Reference)
    requires SpelledOut(r) && !TakenReference(r) && |ReferenceName(r)| <= 7
    ensures !Accepted(CodeOf(r))
  {
    hide CodeOf, ReferenceName, SpelledOut;
  }

  lemma RefersTo(r: Reference)
    requires SpelledOut(r)
    ensures RefBytes(ReferenceName(r))
  {
    ReferenceBytes(r);
    hide ReferenceName, SpelledOut, IsRef;
  }

  lemma BehindAmpersand(m: Machine, r: Reference)
    requires AtReference(m) && m.reference == [] && SpelledOut(r) && !TakenReference(r)
    ensures forall reports :: Strays(m, ReferenceName(r) + [0x3B], reports)
  {
    hide *;
    var name := ReferenceName(r);
    RefersTo(r);
    forall reports ensures Strays(m, name + [0x3B], reports) {
      if |name| > 7 {
        LongStrays(m, name, [0x3B], reports);
      } else {
        UnknownReference(r);
        ReferencePoint(r);
        RefIsRead(m, name);
        NoPrefix(name);
        var m1 := m.(reference := name);
        StaysInReference(m, name);
        RefEndStep(m1);
        ErefIsNegative();
        Stops(m1, 0x3B, [], reports);
        NoSuffix([0x3B]);
        StraysQuietly(m, name, m1, [0x3B], reports);
      }
    }
  }

  lemma StaysInReference(m: Machine, name: seq<Byte>)
    requires AtReference(m)
    ensures AtReference(m.(reference := name))
  {
  }

  lemma ErefIsNegative()
    ensures Negative(Eref) && Negative(Esyn)
  {
  }

  lemma ReferenceStrays(m: Machine, p: Piece, reports: seq<Report>)
    requires InText(m) && p.Refer? && SpelledOut(p.r) && !TakenReference(p.r)
    ensures Strays(m, WritePiece(p), reports)
  {
    hide *;
    ReferringIs(m, p.r);
    RefStarts(m);
    ReferringStarts(m);
    BehindAmpersand(Referring(m), p.r);
    assert Strays(Referring(m), ReferenceName(p.r) + [0x3B], reports);
    StraysQuietly(m, [0x26], Referring(m), ReferenceName(p.r) + [0x3B], reports);
  }

  lemma PieceStray(p: Piece)
    requires TextPiece(p) && !TakenPiece(p)
    ensures p.Refer? && SpelledOut(p.r) && !TakenReference(p.r)
  {
    hide TakenReference, SpelledOut, Referable;
    if p.Refer? { ReferenceTaken(p.r); }
  }

  // ---------------------------------------------------------------- attributes

  lemma ValuesParts(ps: seq<Piece>, q: Quote)
    requires ps != [] && ValuePieces(ps, q)
    ensures ValuePieces(ps[1..], q) && TextPiece(ps[0]) && (TakenValue(ps[0], q) <==> TakenPiece(ps[0]))
    ensures TakenValues(ps, q) <==> TakenValue(ps[0], q) && TakenValues(ps[1..], q)
  {
    hide TextPiece, TakenPiece;
    assert ValuePiece(ps[0], q);
    if TakenValue(ps[0], q) && TakenValues(ps[1..], q) {
      forall i | 0 <= i < |ps| ensures TakenValue(ps[i], q) {
        if i > 0 { assert ps[i] == ps[1..][i - 1]; }
      }
    }
  }

  lemma ValuesText(ps: seq<Piece>)
    requires ps != []
    ensures WritePieces(ps) == WritePiece(ps[0]) + WritePieces(ps[1..])
    ensures ValuesOf(ps) == ValueOf(ps[0]) + ValuesOf(ps[1..])
  {
    hide WritePiece, ValueOf;
  }

  lemma NoPieces(ps: seq<Piece>, q: Quote)
    requires !TakenValues(ps, q)
    ensures ps != []
  {
  }

  lemma ValueHere(m: Machine, q: Quote)
    requires m.regs.state == Attr(3) && m.ignore == 0
    ensures InText(m)
  {
  }

  lemma {:induction false} ValuesStray(m: Machine, ps: seq<Piece>, q: Quote)
    requires m.regs.state == Attr(3) && m.regs.quote == QuoteMark(q) && m.ignore == 0 && ValuePieces(ps, q) && !TakenValues(ps, q)
    ensures Strays(m, WritePieces(ps), Data(AttrVal, ValuesOf(ps)))
    decreases |ps|
  {
    hide *;
    NoPieces(ps, q);
    ValuesParts(ps, q);
    ValuesText(ps);
    DataConcat(AttrVal, ValueOf(ps[0]), ValuesOf(ps[1..]));
    if TakenValue(ps[0], q) {
      var m1 := ValueIsRead(m, ps[0], q);
      KeptFields(m, m1);
      ValuesStray(m1, ps[1..], q);
      StraysLater(m, WritePiece(ps[0]), m1, Data(AttrVal, ValueOf(ps[0])), WritePieces(ps[1..]), Data(AttrVal, ValuesOf(ps[1..])));
    } else {
      PieceStray(ps[0]);
      ValueHere(m, q);
      ReferenceStrays(m, ps[0], Data(AttrVal, ValueOf(ps[0])));
      StraysAhead(m, WritePiece(ps[0]), Data(AttrVal, ValueOf(ps[0])), WritePieces(ps[1..]), Data(AttrVal, ValuesOf(ps[1..])));
    }
  }

  lemma GoodParts(a: Attribute)
    requires GoodAttribute(a)
    ensures a.space != [] && Blanks(a.space) && IsNameOf(a.name) && Blanks(a.left) && Blanks(a.right) && ValuePieces(a.value, a.quote)
    ensures TakenAttribute(a) <==> TakenValues(a.value, a.quote)
  {
    hide Blanks, IsNameOf, ValuePieces, TakenValues;
  }

  /** From the equals sign on. */
  lemma AttributeRestStrays(m: Machine, a: Attribute)
    requires m.regs.state == Attr(0) && m.extra == [a.name] && m.ignore == 0 && GoodAttribute(a) && !TakenValues(a.value, a.quote)
    ensures Strays(m, a.left + ([0x3D] + (a.right + InQuotes(a.quote, WritePieces(a.value)))), AttributeReports(a))
  {
    hide *;
    GoodParts(a);
    AttributeText(a);
    var values, told, end := WritePieces(a.value), Data(AttrVal, ValuesOf(a.value)), [QuoteMark(a.quote)];
    var m1 := InState(m, Attr(2));
    var m2 := m1.(regs := m1.regs.(state := Attr(3), quote := QuoteMark(a.quote)));
    AttributeEquals(m, a.name, a.left);
    StateIs(m, Attr(2));
    ElemIdles();
    Waits(m1, a.right);
    QuoteOpens(m1, a.quote);
    ValuesStray(m2, a.value, a.quote);
    StraysAhead(m2, values, told, end, [Mark(AttrEnd, [])]);
    StraysQuietly(m1, end, m2, values + end, told + [Mark(AttrEnd, [])]);
    QuotedIs(a.quote, values);
    StraysQuietly(m1, a.right, m1, InQuotes(a.quote, values), told + [Mark(AttrEnd, [])]);
    StraysLater(m, a.left + [0x3D], m1, [Mark(AttrStart, a.name)], a.right + InQuotes(a.quote, values), told + [Mark(AttrEnd, [])]);
    Assoc(a.left, [0x3D], a.right + InQuotes(a.quote, values));
  }

  lemma AttributeStrays(m: Machine, a: Attribute, name: Name, outer: seq<Name>)
    requires (m.regs.state == Elem(0) || m.regs.state == Elem(2)) && At(m, m.regs.state, outer + [name])
    requires GoodAttribute(a) && !TakenValues(a.value, a.quote) && Roomy(m, |WriteAttribute(a)|)
    ensures Strays(m, WriteAttribute(a), Pending(m.regs.state, name) + AttributeReports(a))
  {
    hide *;
    AtFields(m, m.regs.state, outer + [name]);
    GoodParts(a);
    AttributeText(a);
    var m1 := InState(m, Elem(1));
    var m2 := InState(m1, Attr(0)).(extra := [a.name]);
    var rest := a.left + ([0x3D] + (a.right + InQuotes(a.quote, WritePieces(a.value))));
    SpaceInTag(m, a.space, name, outer);
    StateIs(m, Elem(1));
    LessRoom(m, |WriteAttribute(a)|, |a.space| + |a.name|);
    RoomLeft(m, a.space, m1, Pending(m.regs.state, name), |a.name|);
    AttributeName(m1, a.name);
    NamedIs(m1, a.name);
    AttributeRestStrays(m2, a);
    StraysQuietly(m1, a.name, m2, rest, AttributeReports(a));
    StraysLater(m, a.space, m1, Pending(m.regs.state, name), a.name + rest, AttributeReports(a));
  }

  lemma {:induction false} AttributesStray(m: Machine, attributes: seq<Attribute>, name: Name, outer: seq<Name>)
    requires (m.regs.state == Elem(0) || m.regs.state == Elem(2)) && At(m, m.regs.state, outer + [name])
    requires GoodAttributes(attributes) && !TakenAttributes(attributes) && Roomy(m, |WriteAttributes(attributes)|)
    ensures Strays(m, WriteAttributes(attributes), Pending(m.regs.state, name) + AttributesReports(attributes))
    decreases |attributes|
  {
    hide *;
    SomeAttributes(attributes);
    GoodAttributesParts(attributes);
    AttributesText(attributes);
    var a, rest := attributes[0], attributes[1..];
    GoodParts(a);
    var told := Pending(m.regs.state, name) + AttributeReports(a);
    LessRoom(m, |WriteAttributes(attributes)|, |WriteAttribute(a)|);
    Assoc(Pending(m.regs.state, name), AttributeReports(a), AttributesReports(rest));
    if TakenAttribute(a) {
      var m1 := AttributeIsRead(m, a, name, outer);
      AtFields(m1, Elem(2), outer + [name]);
      RoomLeft(m, WriteAttribute(a), m1, told, |WriteAttributes(rest)|);
      AttributesStray(m1, rest, name, outer);
      BehindValue(name);
      NoPrefix(AttributesReports(rest));
      StraysLater(m, WriteAttribute(a), m1, told, WriteAttributes(rest), AttributesReports(rest));
    } else {
      AttributeStrays(m, a, name, outer);
      StraysAhead(m, WriteAttribute(a), told, WriteAttributes(rest), AttributesReports(rest));
    }
  }

  lemma SomeAttributes(attributes: seq<Attribute>)
    requires !TakenAttributes(attributes)
    ensures attributes != []
  {
  }

  lemma GoodAttributesParts(attributes: seq<Attribute>)
    requires GoodAttributes(attributes) && attributes != []
    ensures GoodAttribute(attributes[0]) && GoodAttributes(attributes[1..])
    ensures TakenAttributes(attributes) <==> TakenAttribute(attributes[0]) && TakenAttributes(attributes[1..])
  {
    hide GoodAttribute, TakenAttribute;
    if TakenAttribute(attributes[0]) && TakenAttributes(attributes[1..]) {
      forall i | 0 <= i < |attributes| ensures TakenAttribute(attributes[i]) {
        if i > 0 { assert attributes[i] == attributes[1..][i - 1]; }
      }
    }
  }

  lemma BehindValue(name: Name)
    ensures Pending(Elem(2), name) == [] && Pending(Elem(0), name) == [Mark(ElemStart, name)]
  {
  }

  // ---------------------------------------------------------------- instructions

  lemma {:induction false} DataLength(ret: Ret, s: seq<Byte>)
    ensures |Data(ret, s)| == |s|
  {
    if s != [] { DataLength(ret, s[1..]); }
  }

  lemma OddDiffers(s: seq<Byte>)
    ensures Differ(Data(PiContent, s + [0x3F, 0x3E]), Data(PiContent, s) + [Mark(PiEnd, [])])
  {
    DataConcat(PiContent, s, [0x3F, 0x3E]);
    DataLength(PiContent, s);
    var a, b := Data(PiContent, s + [0x3F, 0x3E]), Data(PiContent, s) + [Mark(PiEnd, [])];
    assert a[|s|] == Data(PiContent, [0x3F, 0x3E])[0];
    assert a[|s|] != b[|s|];
  }

  lemma TripStrays(m: Machine, bytes: seq<Byte>, m': Machine, told: seq<Report>, reports: seq<Report>)
    requires Trip(m, bytes, m', told) && Differ(told, reports)
    ensures Strays(m, bytes, reports)
  {
  }

  lemma NotPi(s: St)
    requires Context(s)
    ensures Back(s) != Pi(2)
  {
  }

  lemma GoodInstructionParts(pi: Instruction)
    requires GoodInstruction(pi)
    ensures IsNameOf(pi.target) && !NamesXml(pi.target) && Cleans(pi.data) && Never(pi.data, 0x3F, 0x3E)
    ensures TakenInstruction(pi) <==> Questions(pi.data) % 2 == 0
    ensures pi.separator == [] ==> pi.data == []
    ensures pi.separator != [] ==> |pi.separator| == 1 && Blanks(pi.separator)
  {
    InstructionTaken(pi);
    CharsAreClean(pi.data);
    hide IsNameOf, NamesXml, Chars, Cleans, Never, Questions, Blanks, TakenInstruction;
  }

  lemma InstructionStrays(m: Machine, pi: Instruction, open: seq<Name>)
    requires Context(m.regs.state) && At(m, m.regs.state, open) && GoodInstruction(pi) && !TakenInstruction(pi)
    requires Roomy(m, |WriteInstruction(pi)|)
    ensures Strays(m, WriteInstruction(pi), InstructionReports(pi))
  {
    hide *;
    var next := Back(m.regs.state);
    NotPi(m.regs.state);
    GoodInstructionParts(pi);
    InstructionText(pi);
    OddIsNotEmpty(pi.data);
    XmlIsNot(pi.target);
    LessRoom(m, |WriteInstruction(pi)|, |pi.target| + 2);
    var m1 := TargetIsRead(m, pi.target, open);
    var m2 := InState(m1, Pi(2));
    BlankByte(pi.separator);
    NameEnds(m1, pi.target, next, open, pi.separator[0]);
    StateIs(m1, Pi(2));
    TargetFields(m1, pi.target, next, open);
    assert [pi.separator[0]] == pi.separator;
    var rest, told := pi.data + [0x3F, 0x3E], Data(PiContent, pi.data) + [Mark(PiEnd, [])];
    var m3, said := EndsIffEven(m2, pi.data);
    OddDiffers(pi.data);
    TripStrays(m2, rest, m3, said, told);
    StraysLater(m1, pi.separator, m2, [Mark(PiStart, pi.target)], rest, told);
    StraysQuietly(m, [0x3C, 0x3F] + pi.target, m1, pi.separator + rest, InstructionReports(pi));
    Assoc([0x3C, 0x3F], pi.target, pi.separator + rest);
  }

  lemma OddIsNotEmpty(s: seq<Byte>)
    requires Questions(s) % 2 != 0
    ensures s != [] && Questions(s) % 2 == 1
  {
  }

  // ---------------------------------------------------------------- elements

  lemma SpacedRoot(m: Machine)
    requires m.regs.state == Misc(3) && m.ignore == 0
    ensures Step(m, 0x3E).ret == Esyn
  {
    MiscRow(m.regs, 0x3E);
    hide OnByte;
  }

  /** White space in the end tag of the root. */
  lemma EndStrays(m: Machine, name: Name, last: seq<Byte>)
    requires At(m, Misc(2), [name]) && IsNameOf(name) && Blanks(last) && last != []
    ensures Strays(m, WriteEnd(name, last), [Mark(ElemEnd, [])])
  {
    hide *;
    NoPrefix([name]);
    AtFields(m, Misc(2), [name]);
    EndTagBegins(m, name, []);
    var m1 := InState(m, Etag(1)).(tag := name);
    StateIs(m, Etag(1));
    FirstBlank(last);
    EndTagCloses(m1, last[0], name, []);
    var m2 := InState(m1, Misc(3)).(open := [], tag := []);
    StateIs(m1, Misc(3));
    MiscIdles();
    Waits(m2, last[1..]);
    SpacedRoot(m2);
    ErefIsNegative();
    Stops(m2, 0x3E, [], []);
    NoSuffix([0x3E]);
    StraysQuietly(m2, last[1..], m2, [0x3E], []);
    StraysLater(m1, [last[0]], m2, [Mark(ElemEnd, [])], last[1..] + [0x3E], []);
    NoSuffix([Mark(ElemEnd, [])]);
    assert [last[0]] + (last[1..] + [0x3E]) == last + [0x3E];
    StraysQuietly(m, [0x3C, 0x2F] + name, m1, last + [0x3E], [Mark(ElemEnd, [])]);
    Assoc([0x3C, 0x2F], name, last + [0x3E]);
    EndIs(name, last);
  }

  /** An element from its name on. */
  ghost predicate StraysFrom(m: Machine, n: Node) {
    WriteNode(n) != [] && Strays(m, WriteNode(n)[1..], NodeReports(n))
  }

  lemma StraysIs(m: Machine, n: Node, text: seq<Byte>)
    requires WriteNode(n) == [0x3C] + text && Strays(m, text, NodeReports(n))
    ensures StraysFrom(m, n)
  {
    assert WriteNode(n)[1..] == text;
    hide WriteNode, Strays, NodeReports;
  }

  lemma StraysWhole(m: Machine, n: Node, m1: Machine)
    requires Trip(m, [0x3C], m1, []) && StraysFrom(m1, n) && [0x3C] + WriteNode(n)[1..] == WriteNode(n)
    ensures Strays(m, WriteNode(n), NodeReports(n))
  {
    assert Strays(m1, WriteNode(n)[1..], NodeReports(n));
    hide *;
    StraysQuietly(m, [0x3C], m1, WriteNode(n)[1..], NodeReports(n));
  }

  /** The attributes of an element behind its name, and any text behind them. */
  lemma TagStrays(m: Machine, attributes: seq<Attribute>, name: Name, outer: seq<Name>, rest: seq<Byte>, told: seq<Report>)
    requires At(m, Elem(0), outer + [name]) && GoodAttributes(attributes) && !TakenAttributes(attributes)
    requires Roomy(m, |WriteAttributes(attributes)|)
    ensures Strays(m, WriteAttributes(attributes) + rest, [Mark(ElemStart, name)] + (AttributesReports(attributes) + told))
  {
    hide *;
    AtFields(m, Elem(0), outer + [name]);
    AttributesStray(m, attributes, name, outer);
    BehindValue(name);
    StraysAhead(m, WriteAttributes(attributes), [Mark(ElemStart, name)] + AttributesReports(attributes), rest, told);
    Assoc([Mark(ElemStart, name)], AttributesReports(attributes), told);
  }

  lemma EmptyStrays(m: Machine, s: St, n: Node, outer: seq<Name>)
    requires (s == Le(0) || s == Le(1) || s == Le(2)) && At(m, s, outer) && n.Empty? && GoodNode(n) && !TakenNode(n)
    requires Roomy(m, |WriteNode(n)| - 1)
    ensures StraysFrom(m, n)
  {
    hide *;
    GoodEmptyParts(n);
    EmptyText(n);
    var name, attributes, rest := n.name, WriteAttributes(n.attributes), n.space + [0x2F, 0x3E];
    LessRoom(m, |WriteNode(n)| - 1, |name| + |attributes|);
    LessRoom(m, |name| + |attributes|, |name|);
    var m1 := OpensName(m, s, name, outer);
    RoomLeft(m, name, m1, [], |attributes|);
    TagStrays(m1, n.attributes, name, outer, rest, [Mark(ElemEnd, [])]);
    StraysQuietly(m, name, m1, attributes + rest, NodeReports(n));
    StraysIs(m, n, name + (attributes + rest));
  }

  lemma {:induction false} ElementStrays(m: Machine, s: St, n: Node, outer: seq<Name>)
    requires (s == Le(0) || s == Le(1) || s == Le(2)) && At(m, s, outer) && n.Element? && GoodNode(n)
    requires !TakenNode(n) || (outer == [] && n.last != [])
    requires Roomy(m, |WriteNode(n)| - 1)
    ensures StraysFrom(m, n)
    decreases n, 0
  {
    hide *;
    GoodElementParts(n);
    ElementText(n);
    var name, attributes := n.name, WriteAttributes(n.attributes);
    var content, end := WriteContent(n.content), WriteEnd(n.name, n.last);
    var tag, rest := attributes + (n.space + [0x3E]), n.space + ([0x3E] + (content + end));
    var told, inside := [Mark(ElemStart, name)] + AttributesReports(n.attributes), ContentReports(n.content) + [Mark(ElemEnd, [])];
    var m1 := OpensName(m, s, name, outer) by { LessRoom(m, |WriteNode(n)| - 1, |name|); }
    RoomLeft(m, name, m1, [], |tag| + |content| + |end|);
    LessRoom(m1, |tag| + |content| + |end|, |attributes|);
    Assoc([Mark(ElemStart, name)], AttributesReports(n.attributes), inside);
    if TakenAttributes(n.attributes) {
      var m2 := TagIsRead(m1, n.attributes, n.space, 0x3E, name, outer);
      RoomLeft(m1, tag, m2, told, |content| + |end|);
      LessRoom(m2, |content| + |end|, |content|);
      InsideStrays(m2, n, outer);
      StraysLater(m1, tag, m2, told, content + end, inside);
      assert tag + (content + end) == attributes + rest;
    } else {
      TagStrays(m1, n.attributes, name, outer, rest, inside);
    }
    StraysQuietly(m, name, m1, attributes + rest, NodeReports(n));
    StraysIs(m, n, name + (attributes + rest));
  }

  /** The content and the end tag. */
  lemma {:induction false} InsideStrays(m: Machine, n: Node, outer: seq<Name>)
    requires n.Element? && At(m, Misc(2), outer + [n.name]) && GoodNode(n) && TakenAttributes(n.attributes)
    requires !TakenNode(n) || (outer == [] && n.last != [])
    requires Roomy(m, |WriteContent(n.content)|)
    ensures Strays(m, WriteContent(n.content) + WriteEnd(n.name, n.last), ContentReports(n.content) + [Mark(ElemEnd, [])])
    decreases n.content, 2
  {
    hide *;
    GoodElementParts(n);
    ElementText(n);
    NotEmpty(outer, n.name);
    var content, end, told := WriteContent(n.content), WriteEnd(n.name, n.last), ContentReports(n.content);
    if TakenContent(n.content) {
      var m1 := ContentIsRead(m, n.content, outer + [n.name]);
      NoPrefix([n.name]);
      EndStrays(m1, n.name, n.last);
      StraysLater(m, content, m1, told, end, [Mark(ElemEnd, [])]);
    } else {
      ContentStrays(m, n.content, outer + [n.name]);
      StraysAhead(m, content, told, end, [Mark(ElemEnd, [])]);
    }
  }

  lemma {:induction false} ContentStrays(m: Machine, nodes: seq<Node>, open: seq<Name>)
    requires At(m, Misc(2), open) && open != [] && GoodContent(nodes) && !TakenContent(nodes) && Roomy(m, |WriteContent(nodes)|)
    ensures Strays(m, WriteContent(nodes), ContentReports(nodes))
    decreases nodes, 1
  {
    hide *;
    SomeContent(nodes);
    GoodContentParts(nodes);
    ContentText(nodes);
    var n, rest := nodes[0], nodes[1..];
    LessRoom(m, |WriteContent(nodes)|, |WriteNode(n)|);
    if TakenNode(n) {
      var m1 := NodeIsRead(m, n, open);
      RoomLeft(m, WriteNode(n), m1, NodeReports(n), |WriteContent(rest)|);
      ContentStrays(m1, rest, open);
      StraysLater(m, WriteNode(n), m1, NodeReports(n), WriteContent(rest), ContentReports(rest));
    } else {
      NodeStrays(m, n, open);
      StraysAhead(m, WriteNode(n), NodeReports(n), WriteContent(rest), ContentReports(rest));
    }
  }

  lemma GoodEmptyParts(n: Node)
    requires n.Empty? && GoodNode(n)
    ensures IsNameOf(n.name) && GoodAttributes(n.attributes) && Blanks(n.space)
    ensures TakenNode(n) <==> TakenAttributes(n.attributes)
  {
    hide IsNameOf, GoodAttributes, Blanks, TakenAttributes;
  }

  lemma GoodElementParts(n: Node)
    requires n.Element? && GoodNode(n)
    ensures IsNameOf(n.name) && GoodAttributes(n.attributes) && Blanks(n.space) && GoodContent(n.content) && Blanks(n.last)
    ensures TakenNode(n) <==> TakenAttributes(n.attributes) && TakenContent(n.content)
  {
    hide IsNameOf, GoodAttributes, Blanks, TakenAttributes, GoodContent, TakenContent;
  }

  lemma SomeContent(nodes: seq<Node>)
    requires !TakenContent(nodes)
    ensures nodes != []
  {
  }

  lemma GoodContentParts(nodes: seq<Node>)
    requires nodes != [] && GoodContent(nodes)
    ensures GoodNode(nodes[0]) && GoodContent(nodes[1..])
    ensures TakenContent(nodes) <==> TakenNode(nodes[0]) && TakenContent(nodes[1..])
  {
    hide GoodNode, TakenNode;
  }

  lemma GoodLeafParts(n: Node)
    requires GoodNode(n) && !TakenNode(n)
    ensures n.Character? ==> TextPiece(n.p) && !TakenPiece(n.p)
    ensures n.Process? ==> GoodInstruction(n.pi) && !TakenInstruction(n.pi)
    ensures n.Character? || n.Process? || n.Empty? || n.Element?
  {
    hide TextPiece, TakenPiece, GoodInstruction, TakenInstruction, GoodComment, TakenComment, GoodCData, TakenCData;
    if n.CData? { CDataTaken(n.bytes); }
    if n.Note? { CommentTaken(n.bytes); }
  }

  lemma TextHere(m: Machine)
    requires m.regs.state == Misc(2) && m.ignore == 0
    ensures InText(m)
  {
  }

  lemma {:induction false} NodeStrays(m: Machine, n: Node, open: seq<Name>)
    requires At(m, Misc(2), open) && open != [] && GoodNode(n) && !TakenNode(n) && Roomy(m, |WriteNode(n)|)
    ensures Strays(m, WriteNode(n), NodeReports(n))
    decreases n, 1
  {
    hide *;
    AtFields(m, Misc(2), open);
    InTheContent();
    GoodLeafParts(n);
    LeafText(n);
    if n.Character? {
      TextHere(m);
      PieceStray(n.p);
      ReferenceStrays(m, n.p, NodeReports(n));
    } else if n.Process? {
      InstructionStrays(m, n.pi, open);
    } else {
      var m1 := InState(m, Le(2));
      AngleOpens(m);
      AngleAt(m, Misc(2), open);
      RoomLeft(m, [0x3C], m1, [], |WriteNode(n)| - 1);
      if n.Empty? { EmptyStrays(m1, Le(2), n, open); } else { ElementStrays(m1, Le(2), n, open); }
      StraysWhole(m, n, m1);
    }
  }

  // ---------------------------------------------------------------- outside of the root element

  lemma OutsideIsContext(s: St)
    requires Early(s) || s == Misc(3)
    ensures Context(s)
  {
  }

  lemma MiscStrays(m: Machine, x: Misc)
    requires (Early(m.regs.state) || m.regs.state == Misc(3)) && At(m, m.regs.state, []) && GoodMisc(x) && !TakenMisc(x)
    requires (m.regs.state == Misc(3) ==> !x.Doctype?) && Roomy(m, |WriteMisc(x)|)
    ensures Strays(m, WriteMisc(x), MiscReports(x))
  {
    hide *;
    GoodMiscParts(x);
    MiscText(x);
    EarlyCases(m.regs.state);
    if x.Order? {
      OutsideIsContext(m.regs.state);
      InstructionStrays(m, x.pi, []);
    } else {
      DoctypeStrays(m, x.parts);
    }
  }

  lemma GoodMiscParts(x: Misc)
    requires GoodMisc(x) && !TakenMisc(x)
    ensures x.Order? || x.Doctype?
    ensures x.Order? ==> GoodInstruction(x.pi) && !TakenInstruction(x.pi)
    ensures x.Doctype? ==> GoodDoctype(x.parts) && !TakenDoctype(x.parts)
  {
    hide Blanks, GoodComment, TakenComment, GoodInstruction, TakenInstruction, GoodDoctype, TakenDoctype;
    if x.Remark? { CommentTaken(x.bytes); }
  }

  lemma {:induction false} MiscsStray(m: Machine, xs: seq<Misc>)
    requires (Early(m.regs.state) || m.regs.state == Misc(3)) && At(m, m.regs.state, []) && GoodMiscs(xs) && !TakenMiscs(xs)
    requires (m.regs.state == Misc(3) ==> NoDoctype(xs)) && Roomy(m, |WriteMiscs(xs)|)
    ensures Strays(m, WriteMiscs(xs), MiscsReports(xs))
    decreases |xs|
  {
    hide *;
    SomeMiscs(xs);
    GoodMiscsParts(xs);
    MiscsText(xs);
    EarlyStates();
    var x, rest := xs[0], xs[1..];
    LessRoom(m, |WriteMiscs(xs)|, |WriteMisc(x)|);
    if TakenMisc(x) {
      var m1 := MiscIsRead(m, x);
      RoomLeft(m, WriteMisc(x), m1, MiscReports(x), |WriteMiscs(rest)|);
      MiscsStray(m1, rest);
      StraysLater(m, WriteMisc(x), m1, MiscReports(x), WriteMiscs(rest), MiscsReports(rest));
    } else {
      MiscStrays(m, x);
      StraysAhead(m, WriteMisc(x), MiscReports(x), WriteMiscs(rest), MiscsReports(rest));
    }
  }

  lemma SomeMiscs(xs: seq<Misc>)
    requires !TakenMiscs(xs)
    ensures xs != []
  {
  }

  lemma GoodMiscsParts(xs: seq<Misc>)
    requires GoodMiscs(xs) && xs != []
    ensures GoodMisc(xs[0]) && GoodMiscs(xs[1..]) && (NoDoctype(xs) ==> !xs[0].Doctype? && NoDoctype(xs[1..]))
    ensures TakenMiscs(xs) <==> TakenMisc(xs[0]) && TakenMiscs(xs[1..])
  {
    hide GoodMisc, TakenMisc;
    if TakenMisc(xs[0]) && TakenMiscs(xs[1..]) {
      forall i | 0 <= i < |xs| ensures TakenMisc(xs[i]) {
        if i > 0 { assert xs[i] == xs[1..][i - 1]; }
      }
    }
  }

  lemma {:induction false} PartsStray(m: Machine, parts: seq<DoctypePart>)
    requires At(m, Dt(0), []) && GoodDoctype(parts) && !TakenDoctype(parts) && Roomy(m, |WriteDoctypeParts(parts)|)
    ensures Strays(m, WriteDoctypeParts(parts), DoctypeReports(parts))
    decreases |parts|
  {
    hide *;
    SomeParts(parts);
    GoodDoctypeParts(parts);
    DoctypePartsText(parts);
    var d, rest := parts[0], parts[1..];
    LessRoom(m, |WriteDoctypeParts(parts)|, |WriteDoctypePart(d)|);
    if TakenDoctypePart(d) {
      var m1 := PartIsRead(m, d);
      RoomLeft(m, WriteDoctypePart(d), m1, PartReports(d), |WriteDoctypeParts(rest)|);
      PartsStray(m1, rest);
      StraysLater(m, WriteDoctypePart(d), m1, PartReports(d), WriteDoctypeParts(rest), DoctypeReports(rest));
    } else {
      GoodPartParts(d);
      AtFields(m, Dt(0), []);
      DoctypeContext();
      InstructionStrays(m, d.pi, []);
      StraysAhead(m, WriteDoctypePart(d), PartReports(d), WriteDoctypeParts(rest), DoctypeReports(rest));
    }
  }

  lemma SomeParts(parts: seq<DoctypePart>)
    requires !TakenDoctype(parts)
    ensures parts != []
  {
  }

  lemma GoodDoctypeParts(parts: seq<DoctypePart>)
    requires GoodDoctype(parts) && parts != []
    ensures GoodDoctypePart(parts[0]) && GoodDoctype(parts[1..])
    ensures TakenDoctype(parts) <==> TakenDoctypePart(parts[0]) && TakenDoctype(parts[1..])
  {
    hide GoodDoctypePart, TakenDoctypePart;
    if TakenDoctypePart(parts[0]) && TakenDoctype(parts[1..]) {
      forall i | 0 <= i < |parts| ensures TakenDoctypePart(parts[i]) {
        if i > 0 { assert parts[i] == parts[1..][i - 1]; }
      }
    }
  }

  lemma GoodPartParts(d: DoctypePart)
    requires GoodDoctypePart(d) && !TakenDoctypePart(d)
    ensures d.DoctypeOrder? && GoodInstruction(d.pi) && !TakenInstruction(d.pi)
    ensures WriteDoctypePart(d) == WriteInstruction(d.pi) && PartReports(d) == InstructionReports(d.pi)
  {
    PartTaken(d);
    hide TakenDoctypePart, GoodInstruction, TakenInstruction, InstructionCloses, WriteInstruction, InstructionReports;
    if d.DoctypeOrder? { InstructionTaken(d.pi); }
  }

  lemma DoctypeStrays(m: Machine, parts: seq<DoctypePart>)
    requires Early(m.regs.state) && At(m, m.regs.state, []) && GoodDoctype(parts) && !TakenDoctype(parts)
    requires Roomy(m, |WriteDoctype(parts)|)
    ensures Strays(m, WriteDoctype(parts), DoctypeReports(parts))
  {
    hide *;
    AtFields(m, m.regs.state, []);
    DoctypeText(parts);
    var start: seq<Byte> := [0x3C, 0x21, 0x44, 0x4F, 0x43, 0x54, 0x59, 0x50, 0x45];
    var m1 := DoctypeOpens(m);
    StillAt(m, m1, Dt(0), []);
    RoomLeft(m, start, m1, [], |WriteDoctypeParts(parts)| + 1);
    LessRoom(m1, |WriteDoctypeParts(parts)| + 1, |WriteDoctypeParts(parts)|);
    PartsStray(m1, parts);
    StraysAhead(m1, WriteDoctypeParts(parts), DoctypeReports(parts), [0x3E], []);
    NoSuffix(DoctypeReports(parts));
    StraysQuietly(m, start, m1, WriteDoctypeParts(parts) + [0x3E], DoctypeReports(parts));
  }

  // ---------------------------------------------------------------- a whole document

  lemma RootStrays(m: Machine, n: Node)
    requires Early(m.regs.state) && At(m, m.regs.state, []) && (n.Empty? || n.Element?) && GoodNode(n)
    requires !TakenNode(n) || (n.Element? && n.last != [])
    requires Roomy(m, |WriteNode(n)|)
    ensures Strays(m, WriteNode(n), NodeReports(n))
  {
    hide *;
    var s := m.regs.state;
    EarlyIs(s);
    AtFields(m, s, []);
    LeafText(n);
    var m1 := InState(m, Angle(s));
    AngleOpens(m);
    AngleAt(m, s, []);
    RoomLeft(m, [0x3C], m1, [], |WriteNode(n)| - 1);
    if n.Empty? { EmptyStrays(m1, Angle(s), n, []); } else { ElementStrays(m1, Angle(s), n, []); }
    StraysWhole(m, n, m1);
  }

  lemma GoodDocumentParts(d: Document)
    requires GoodDocument(d)
    ensures d.lead == [] && Blanks(d.lead) && !d.cut && (d.declaration.Some? ==> GoodDeclaration(d.declaration.value))
    ensures GoodMiscs(d.prolog) && GoodMiscs(d.after) && NoDoctype(d.after) && (d.root.Empty? || d.root.Element?) && GoodNode(d.root)
    ensures TakenDocument(d) <==>
      TakenMiscs(d.prolog) && TakenNode(d.root) && (d.root.Element? ==> d.root.last == []) && TakenMiscs(d.after)
  {
    hide GoodDeclaration, GoodMiscs, GoodNode, TakenMiscs, TakenNode, NoDoctype;
  }

  lemma DocumentStrays(m: Machine, d: Document)
    requires At(m, Init, []) && GoodDocument(d) && !TakenDocument(d) && Roomy(m, |Write(d)|)
    ensures Strays(m, Write(d), Reports(d))
  {
    hide *;
    GoodDocumentParts(d);
    DocumentText(d);
    WholeRoot(d.root);
    var head, prolog, root, after := HeadBytes(d), WriteMiscs(d.prolog), WriteNode(d.root), WriteMiscs(d.after);
    LessRoom(m, |Write(d)|, |head|);
    var m1 := HeadIsRead(m, d);
    RoomLeft(m, head, m1, [], |prolog| + |root| + |after|);
    LessRoom(m1, |prolog| + |root| + |after|, |prolog|);
    EarlyIsNotLate(m1.regs.state);
    if TakenMiscs(d.prolog) {
      var m2 := MiscsAreRead(m1, d.prolog);
      RoomLeft(m1, prolog, m2, MiscsReports(d.prolog), |root| + |after|);
      RootAndAfter(m2, d);
      StraysLater(m1, prolog, m2, MiscsReports(d.prolog), root + after, NodeReports(d.root) + MiscsReports(d.after));
    } else {
      MiscsStray(m1, d.prolog);
      StraysAhead(m1, prolog, MiscsReports(d.prolog), root + after, NodeReports(d.root) + MiscsReports(d.after));
    }
    StraysQuietly(m, head, m1, prolog + (root + after), Reports(d));
  }

  lemma RootAndAfter(m: Machine, d: Document)
    requires Early(m.regs.state) && At(m, m.regs.state, []) && GoodDocument(d) && Roomy(m, |WriteNode(d.root)| + |WriteMiscs(d.after)|)
    requires !TakenNode(d.root) || (d.root.Element? && d.root.last != []) || !TakenMiscs(d.after)
    ensures Strays(m, WriteNode(d.root) + WriteMiscs(d.after), NodeReports(d.root) + MiscsReports(d.after))
  {
    hide *;
    GoodDocumentParts(d);
    WholeRoot(d.root);
    var root, after := WriteNode(d.root), WriteMiscs(d.after);
    LessRoom(m, |root| + |after|, |root|);
    if TakenNode(d.root) && (d.root.Element? ==> d.root.last == []) {
      WholeIs(d.root);
      var m1 := RootIsRead(m, d.root, false);
      AtFields(m1, Misc(3), []);
      RoomLeft(m, root, m1, NodeReports(d.root), |after|);
      MiscsStray(m1, d.after);
      StraysLater(m, root, m1, NodeReports(d.root), after, MiscsReports(d.after));
    } else {
      RootStrays(m, d.root);
      StraysAhead(m, root, NodeReports(d.root), after, MiscsReports(d.after));
    }
  }

  lemma WholeIs(n: Node)
    requires (n.Empty? || n.Element?) && (n.Element? ==> n.last == [])
    ensures RootTaken(n, false)
  {
  }

  // ---------------------------------------------------------------- the exact condition

  lemma {:induction false} ErrorStays(room: nat, done: seq<Byte>, bytes: seq<Byte>)
    requires Negative(Feed(room, done).ret)
    ensures Negative(Feed(room, done + bytes).ret)
    decreases |bytes|
  {
    hide Step;
    if bytes == [] {
      NoSuffix(done);
    } else {
      var front, last := bytes[..|bytes| - 1], bytes[|bytes| - 1];
      assert bytes == front + [last];
      Assoc(done, front, [last]);
      ErrorStays(room, done, front);
      assert (done + front + [last])[..|done + front|] == done + front;
    }
  }

  /** An error on the way is an error of the whole stream. */
  lemma {:induction false} FeedsStop(room: nat, done: seq<Byte>, bytes: seq<Byte>)
    requires !Negative(Feed(room, done).ret) && !Go(Feed(room, done).m, bytes).ok
    ensures Negative(Feed(room, done + bytes).ret)
    decreases |bytes|
  {
    hide Step, Told, Feed;
    var m := Feed(room, done).m;
    FeedNext(room, done, bytes[0]);
    Assoc(done, [bytes[0]], bytes[1..]);
    assert [bytes[0]] + bytes[1..] == bytes;
    if Negative(Step(m, bytes[0]).ret) {
      ErrorStays(room, done + [bytes[0]], bytes[1..]);
    } else {
      FeedsStop(room, done + [bytes[0]], bytes[1..]);
    }
  }

  /** The text is taken to its end without an error, and nothing but the reports of the document is reported. */
  ghost predicate ReadRight(room: nat, text: seq<Byte>, d: Document) {
    !Negative(Feed(room, text).ret) && Eof(Feed(room, text).m) == Ok && Heard(room, text) == Reports(d)
  }

  lemma StrayedIsNotRight(room: nat, text: seq<Byte>, normal: seq<Byte>, d: Document)
    requires LineEnds(text, false) == normal && Strays(Start(room), normal, Reports(d))
    ensures !ReadRight(room, text, d)
  {
    hide Go, Step, Feed, Reports, LineEnds, Told, Heard, Start;
    var m := Start(room);
    FeedOfNothing(room);
    LineEndsAreNormal(m, text, false);
    assert m.(ignore := 0) == m;
    var w := Go(m, text);
    NoPrefix(text);
    if w.ok {
      FeedsOn(room, [], text, w.m, w.told);
      NoPrefix(w.told);
    } else {
      FeedsStop(room, [], text);
    }
  }

  lemma RightIs(room: nat, text: seq<Byte>, d: Document)
    ensures ReadRight(room, text, d) <==>
      !Negative(Feed(room, text).ret) && Eof(Feed(room, text).m) == Ok && Heard(room, text) == Reports(d)
  {
    hide Feed, Heard, Reports;
  }

  /** The documents that the parser reads right, when it has room for the names, are exactly those whose references have
      at most seven characters and stand for none of U+E000 to U+E7FD, whose instructions have an even number of question
      marks in front of "?>", and that have no white space in the end tag of the root. */
  lemma ReadIffKnown(room: nat, text: seq<Byte>, d: Document)
    requires GoodDocument(d) && LineEnds(text, false) == Write(d) && room > 2 * |Write(d)| + 2
    ensures !Negative(Feed(room, text).ret) && Eof(Feed(room, text).m) == Ok && Heard(room, text) == Reports(d) <==> DocumentKnown(d)
  {
    hide *;
    RightIs(room, text, d);
    DocumentTaken(d);
    if DocumentKnown(d) {
      DocumentsAreRead(room, text, d);
    } else {
      StartIs(room);
      StartIsRoomy(room, |Write(d)|);
      DocumentStrays(Start(room), d);
      StrayedIsNotRight(room, text, Write(d), d);
    }
  }
}
