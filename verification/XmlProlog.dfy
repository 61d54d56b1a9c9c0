// What may stand before the root element of a document, as the XML automaton takes it: the byte order mark, the XML
// declaration, white space, comments, instructions and the document type.
module XmlProlog {
  import opened Bytes
  import opened XmlStates
  import opened XmlAutomaton
  import opened XmlDocuments
  import opened XmlTaken
  import opened XmlSteps
  import opened XmlRuns
  import opened XmlMarkup
  import opened XmlInstructions

  /** The same machine but for its registers. */
  ghost predicate OnlyRegs(m: Machine, m': Machine) {
    m' == m.(regs := m'.regs)
  }

  lemma RegsTwice(m: Machine, m1: Machine, m2: Machine)
    requires OnlyRegs(m, m1) && OnlyRegs(m1, m2)
    ensures OnlyRegs(m, m2)
  {
  }

  lemma SameRegs(m: Machine)
    ensures OnlyRegs(m, m)
  {
  }

  lemma StillAt(m: Machine, m': Machine, s: St, open: seq<Name>)
    requires At(m, m.regs.state, open) && OnlyRegs(m, m') && m'.regs.state == s
    ensures At(m', s, open) && m'.room == m.room
  {
  }

  lemma FieldsKept(m: Machine, m': Machine)
    requires OnlyRegs(m, m')
    ensures m'.ignore == m.ignore && m'.open == m.open && m'.extra == m.extra && m'.tag == m.tag && m'.room == m.room
  {
  }

  // ---------------------------------------------------------------- the document type

  lemma DoctypeByte(m: Machine, c: Byte, r: Regs)
    requires m.regs.state.Dt? && Plainly(m, c) && OnDoctype(m.regs, c) == React(r, Give(Ok))
    ensures Trip(m, [c], m.(regs := r), [])
  {
    DoctypeRow(m.regs, c);
    hide OnByte, Trip, OnDoctype;
    Silent(m, c, r);
  }

  /** A byte that the document type passes over. */
  lemma OtherByte(m: Machine, c: Byte)
    requires (m.regs.state == Dt(0) && c != 0x3C) || m.regs.state == Dt(4)
    requires m.ignore == 0 && TakenOther(c)
    ensures Trip(m, [c], m, [])
  {
    DoctypeByte(m, c, m.regs);
    hide *;
    assert m.(regs := m.regs) == m;
  }

  lemma {:induction false} LiteralBody(m: Machine, q: Quote, s: seq<Byte>)
    requires m.regs.state == Dt(1) && m.regs.quote == QuoteMark(q) && m.ignore == 0 && TakenLiteral(q, s)
    ensures Trip(m, s, m, [])
    decreases |s|
  {
    hide *;
    if s == [] {
      Nowhere(m);
    } else {
      LiteralParts(q, s);
      LiteralByte(m, q, s[0]);
      LiteralBody(m, q, s[1..]);
      QuietFirst(m, [s[0]], m, s[1..], m, []);
      assert [s[0]] + s[1..] == s;
    }
  }

  lemma LiteralParts(q: Quote, s: seq<Byte>)
    requires TakenLiteral(q, s) && s != []
    ensures Clean(s[0]) && s[0] != QuoteMark(q) && TakenLiteral(q, s[1..])
  {
  }

  lemma LiteralByte(m: Machine, q: Quote, c: Byte)
    requires m.regs.state == Dt(1) && m.regs.quote == QuoteMark(q) && m.ignore == 0 && Clean(c) && c != QuoteMark(q)
    ensures Trip(m, [c], m, [])
  {
    DoctypeByte(m, c, m.regs);
    hide *;
    assert m.(regs := m.regs) == m;
  }

  lemma LiteralIsRead(m: Machine, q: Quote, s: seq<Byte>) returns (m': Machine)
    requires (m.regs.state == Dt(0) || m.regs.state == Dt(4)) && m.ignore == 0 && TakenLiteral(q, s)
    ensures Trip(m, InQuotes(q, s), m', []) && OnlyRegs(m, m') && m'.regs.state == m.regs.state
  {
    var m1 := m.(regs := m.regs.(state := Dt(1), quote := QuoteMark(q), next := m.regs.state));
    m' := InState(m1, m.regs.state);
    DoctypeByte(m, QuoteMark(q), m1.regs);
    LiteralBody(m1, q, s);
    DoctypeByte(m1, QuoteMark(q), m'.regs);
    hide Trip, TakenLiteral;
    QuietFirst(m1, s, m1, [QuoteMark(q)], m', []);
    QuietFirst(m, [QuoteMark(q)], m1, s + [QuoteMark(q)], m', []);
  }

  lemma {:induction false} MarkupIsRead(m: Machine, parts: seq<MarkupPart>) returns (m': Machine)
    requires m.regs.state == Dt(4) && m.ignore == 0 && TakenMarkup(parts)
    ensures Trip(m, WriteMarkup(parts), m', []) && OnlyRegs(m, m') && m'.regs.state == Dt(4)
    decreases |parts|
  {
    hide Trip, TakenLiteral, TakenOther, OnlyRegs;
    SameRegs(m);
    if parts == [] {
      m' := m;
      Nowhere(m);
    } else {
      assert TakenMarkupPart(parts[0]);
      match parts[0]
      case MarkupOther(b) =>
        OtherByte(m, b);
        m' := MarkupIsRead(m, parts[1..]);
        QuietFirst(m, [b], m, WriteMarkup(parts[1..]), m', []);
      case MarkupLiteral(q, bytes) =>
        var m1 := LiteralIsRead(m, q, bytes);
        FieldsKept(m, m1);
        m' := MarkupIsRead(m1, parts[1..]);
        QuietFirst(m, InQuotes(q, bytes), m1, WriteMarkup(parts[1..]), m', []);
        RegsTwice(m, m1, m');
    }
  }

  lemma MarkupOpens(m: Machine, first: Byte)
    requires m.regs.state == Dt(0) && m.ignore == 0 && Clean(first) && first != 0x2D
    ensures Trip(m, [0x3C, 0x21, first], InState(m, Dt(4)), [])
  {
    var m1, m2 := InState(m, Dt(2)), InState(m, Dt(3));
    DoctypeByte(m, 0x3C, m1.regs);
    DoctypeByte(m1, 0x21, m2.regs);
    DoctypeByte(m2, first, InState(m, Dt(4)).regs);
    hide *;
    QuietFirst(m1, [0x21], m2, [first], InState(m, Dt(4)), []);
    QuietFirst(m, [0x3C], m1, [0x21] + [first], InState(m, Dt(4)), []);
    assert [0x3C] + ([0x21] + [first]) == [0x3C, 0x21, first];
  }

  lemma MarkupCloses(m: Machine)
    requires (m.regs.state == Dt(4) || m.regs.state == Dt(0)) && m.ignore == 0
    ensures Trip(m, [0x3E], InState(m, if m.regs.state == Dt(4) then Dt(0) else Misc(1)), [])
  {
    DoctypeByte(m, 0x3E, InState(m, if m.regs.state == Dt(4) then Dt(0) else Misc(1)).regs);
    hide *;
  }

  lemma MarkupDeclarationIsRead(m: Machine, first: Byte, parts: seq<MarkupPart>) returns (m': Machine)
    requires m.regs.state == Dt(0) && m.ignore == 0 && TakenDoctypePart(Markup(first, parts))
    ensures Trip(m, WriteDoctypePart(Markup(first, parts)), m', []) && OnlyRegs(m, m') && m'.regs.state == Dt(0)
  {
    var m1 := InState(m, Dt(4));
    MarkupOpens(m, first);
    var m2 := MarkupIsRead(m1, parts);
    MarkupCloses(m2);
    m' := InState(m2, Dt(0));
    hide Trip, TakenMarkupPart;
    QuietFirst(m1, WriteMarkup(parts), m2, [0x3E], m', []);
    QuietFirst(m, [0x3C, 0x21, first], m1, WriteMarkup(parts) + [0x3E], m', []);
  }

  lemma DoctypeContext()
    ensures Context(Dt(0)) && Back(Dt(0)) == Dt(0)
  {
  }

  function PartReports(d: DoctypePart): seq<Report> {
    if d.DoctypeOrder? then InstructionReports(d.pi) else []
  }

  lemma PartParts(d: DoctypePart)
    requires TakenDoctypePart(d)
    ensures d.Other? ==> TakenOther(d.b) && d.b != 0x3C && WriteDoctypePart(d) == [d.b]
    ensures d.Literal? ==> TakenLiteral(d.quote, d.bytes) && WriteDoctypePart(d) == InQuotes(d.quote, d.bytes)
    ensures d.Markup? ==> d == Markup(d.first, d.parts)
    ensures d.DoctypeRemark? ==> TakenComment(d.bytes) && WriteDoctypePart(d) == WriteComment(d.bytes)
    ensures d.DoctypeOrder? ==>
      TakenInstruction(d.pi) && WriteDoctypePart(d) == WriteInstruction(d.pi) && PartReports(d) == InstructionReports(d.pi)
    ensures !d.DoctypeOrder? ==> PartReports(d) == []
  {
    hide TakenOther, TakenLiteral, TakenComment, TakenInstruction, WriteComment, WriteInstruction, InQuotes, InstructionReports;
  }

  lemma PartIsRead(m: Machine, d: DoctypePart) returns (m': Machine)
    requires At(m, Dt(0), []) && TakenDoctypePart(d)
    requires Roomy(m, |WriteDoctypePart(d)|)
    ensures Trip(m, WriteDoctypePart(d), m', PartReports(d)) && At(m', Dt(0), []) && m'.room == m.room
  {
    hide *;
    AtFields(m, Dt(0), []);
    DoctypeContext();
    PartParts(d);
    if d.Other? {
      m' := m;
      OtherByte(m, d.b);
    } else if d.Literal? {
      m' := LiteralIsRead(m, d.quote, d.bytes);
      StillAt(m, m', Dt(0), []);
    } else if d.Markup? {
      m' := MarkupDeclarationIsRead(m, d.first, d.parts);
      StillAt(m, m', Dt(0), []);
    } else if d.DoctypeRemark? {
      m' := CommentIsRead(m, d.bytes, []);
    } else {
      m' := InstructionIsRead(m, d.pi, []);
    }
  }

  lemma DoctypeParts(parts: seq<DoctypePart>)
    requires TakenDoctype(parts) && parts != []
    ensures TakenDoctypePart(parts[0]) && TakenDoctype(parts[1..])
  {
    hide TakenDoctypePart;
  }

  lemma DoctypePartsText(parts: seq<DoctypePart>)
    requires parts != []
    ensures WriteDoctypeParts(parts) == WriteDoctypePart(parts[0]) + WriteDoctypeParts(parts[1..])
    ensures DoctypeReports(parts) == PartReports(parts[0]) + DoctypeReports(parts[1..])
  {
    hide WriteDoctypePart, InstructionReports;
  }

  lemma NoParts(parts: seq<DoctypePart>)
    requires parts == []
    ensures WriteDoctypeParts(parts) == [] && DoctypeReports(parts) == []
  {
  }

  lemma {:induction false} PartsAreRead(m: Machine, parts: seq<DoctypePart>) returns (m': Machine)
    requires At(m, Dt(0), []) && TakenDoctype(parts) && Roomy(m, |WriteDoctypeParts(parts)|)
    ensures Trip(m, WriteDoctypeParts(parts), m', DoctypeReports(parts)) && At(m', Dt(0), []) && m'.room == m.room
    decreases |parts|
  {
    hide *;
    if parts == [] {
      m' := m;
      NoParts(parts);
      Nowhere(m);
    } else {
      var d, rest := parts[0], parts[1..];
      DoctypeParts(parts);
      DoctypePartsText(parts);
      LessRoom(m, |WriteDoctypeParts(parts)|, |WriteDoctypePart(d)|);
      var m1 := PartIsRead(m, d);
      RoomLeft(m, WriteDoctypePart(d), m1, PartReports(d), |WriteDoctypeParts(rest)|);
      m' := PartsAreRead(m1, rest);
      Join(m, WriteDoctypePart(d), m1, PartReports(d), WriteDoctypeParts(rest), m', DoctypeReports(rest));
    }
  }

  /** Before the root element. */
  predicate Early(s: St) { s == Init || s == Misc(0) || s == Misc(1) }

  lemma EarlyIs(s: St)
    requires Early(s)
    ensures Context(s) && Early(Back(s)) && (Angle(s) == Le(0) || Angle(s) == Le(1)) && Exclaimed(s) == Lee(1)
  {
  }

  const OCTYPE: seq<Byte> := [0x4F, 0x43, 0x54, 0x59, 0x50, 0x45]

  lemma DoctypeWord()
    ensures Text("OCTYPE") == OCTYPE && NUL !in OCTYPE && 13 !in OCTYPE
    ensures [0x3C] + ([0x21] + ([0x44] + OCTYPE)) == [0x3C, 0x21, 0x44, 0x4F, 0x43, 0x54, 0x59, 0x50, 0x45]
  {
    DoctypeSpelled();
    hide Text;
  }

  lemma DoctypeSpelled()
    ensures Text("OCTYPE") == OCTYPE
  {
    assert "OCTYPE"[1..] == "CTYPE" && "CTYPE"[1..] == "TYPE";
    Four('T', 'Y', 'P', 'E');
  }

  lemma DoctypeLetter(m: Machine)
    requires m.regs.state == Lee(1) && m.ignore == 0
    ensures Trip(m, [0x44], Expecting(m, Dt(0), OCTYPE), [])
  {
    DoctypeWord();
    MarkRow(m.regs, 0x44);
    hide OnByte, Trip, Text;
    Silent(m, 0x44, Expecting(m, Dt(0), OCTYPE).regs);
  }

  lemma DoctypeOpens(m: Machine) returns (m': Machine)
    requires Early(m.regs.state) && m.ignore == 0
    ensures Trip(m, [0x3C, 0x21, 0x44, 0x4F, 0x43, 0x54, 0x59, 0x50, 0x45], m', []) && OnlyRegs(m, m') && m'.regs.state == Dt(0)
  {
    hide *;
    var s := m.regs.state;
    EarlyIs(s);
    var m1 := InState(m, Angle(s));
    var m2 := m1.(regs := m1.regs.(state := Exclaimed(s), next := if s == Misc(3) then Misc(3) else m1.regs.next));
    StateIs(m, Angle(s));
    AngleOpens(m);
    Exclaims(m1, s);
    DoctypeLetter(m2);
    DoctypeWord();
    var m3 := Expecting(m2, Dt(0), OCTYPE);
    m' := Spelled(m3);
    Expected(m2, Dt(0), OCTYPE);
    QuietFirst(m2, [0x44], m3, OCTYPE, m', []);
    QuietFirst(m1, [0x21], m2, [0x44] + OCTYPE, m', []);
    QuietFirst(m, [0x3C], m1, [0x21] + ([0x44] + OCTYPE), m', []);
    ThreeRegs(m, m1, m2, m');
  }

  lemma ThreeRegs(m: Machine, m1: Machine, m2: Machine, m3: Machine)
    requires m1 == m.(regs := m1.regs) && m2 == m1.(regs := m2.regs) && m3 == m2.(regs := m3.regs)
    ensures OnlyRegs(m, m3)
  {
  }

  lemma DoctypeIsRead(m: Machine, parts: seq<DoctypePart>) returns (m': Machine)
    requires Early(m.regs.state) && At(m, m.regs.state, []) && TakenDoctype(parts)
    requires Roomy(m, |WriteDoctype(parts)|)
    ensures Trip(m, WriteDoctype(parts), m', DoctypeReports(parts)) && At(m', Misc(1), []) && m'.room == m.room
  {
    hide *;
    AtFields(m, m.regs.state, []);
    DoctypeText(parts);
    var start: seq<Byte> := [0x3C, 0x21, 0x44, 0x4F, 0x43, 0x54, 0x59, 0x50, 0x45];
    var m1 := DoctypeOpens(m);
    StillAt(m, m1, Dt(0), []);
    RoomLeft(m, start, m1, [], |WriteDoctypeParts(parts)| + 1);
    LessRoom(m1, |WriteDoctypeParts(parts)| + 1, |WriteDoctypeParts(parts)|);
    var m2 := PartsAreRead(m1, parts);
    AtFields(m2, Dt(0), []);
    MarkupCloses(m2);
    m' := InState(m2, Misc(1));
    StateIs(m2, Misc(1));
    ClosedAt(m', Misc(1), []);
    QuietLast(m1, WriteDoctypeParts(parts), m2, DoctypeReports(parts), [0x3E], m');
    QuietFirst(m, start, m1, WriteDoctypeParts(parts) + [0x3E], m', DoctypeReports(parts));
  }

  lemma DoctypeText(parts: seq<DoctypePart>)
    ensures WriteDoctype(parts) == [0x3C, 0x21, 0x44, 0x4F, 0x43, 0x54, 0x59, 0x50, 0x45] + (WriteDoctypeParts(parts) + [0x3E])
  {
    hide WriteDoctypeParts;
  }

  // ---------------------------------------------------------------- white space, comments and instructions

  lemma MiscParts(x: Misc)
    requires TakenMisc(x)
    ensures x.Space? ==> Blanks([x.b])
    ensures x.Remark? ==> TakenComment(x.bytes)
    ensures x.Order? ==> TakenInstruction(x.pi)
    ensures x.Doctype? ==> TakenDoctype(x.parts)
  {
    hide Blanks, TakenComment, TakenInstruction, TakenDoctype;
  }

  lemma MiscText(x: Misc)
    ensures x.Space? ==> WriteMisc(x) == [x.b] && MiscReports(x) == []
    ensures x.Remark? ==> WriteMisc(x) == WriteComment(x.bytes) && MiscReports(x) == []
    ensures x.Order? ==> WriteMisc(x) == WriteInstruction(x.pi) && MiscReports(x) == InstructionReports(x.pi)
    ensures x.Doctype? ==> WriteMisc(x) == WriteDoctype(x.parts) && MiscReports(x) == DoctypeReports(x.parts)
  {
    hide WriteComment, WriteInstruction, InstructionReports, WriteDoctype, DoctypeReports;
  }

  lemma FirstSpace(m: Machine, b: Byte)
    requires m.regs.state == Init && Blanks([b]) && m.ignore == 0
    ensures Trip(m, [b], InState(m, Misc(0)), [])
  {
    FirstBlank([b]);
    MiscRow(m.regs, b);
    hide OnByte, Trip;
    Silent(m, b, InState(m, Misc(0)).regs);
  }

  lemma BackIs(s: St)
    ensures Early(s) ==> Back(s) == Misc(1)
    ensures Early(Misc(1))
  {
  }

  lemma MiscIdles()
    ensures Idles(Misc(0)) && Idles(Misc(1)) && Idles(Misc(3)) && Context(Misc(3)) && Back(Misc(3)) == Misc(3)
  {
  }

  lemma MiscIsRead(m: Machine, x: Misc) returns (m': Machine)
    requires (Early(m.regs.state) || m.regs.state == Misc(3)) && At(m, m.regs.state, []) && TakenMisc(x)
    requires (m.regs.state == Misc(3) ==> !x.Doctype?) && Roomy(m, |WriteMisc(x)|)
    ensures Trip(m, WriteMisc(x), m', MiscReports(x)) && At(m', m'.regs.state, []) && m'.room == m.room
    ensures if m.regs.state == Misc(3) then m'.regs.state == Misc(3) else Early(m'.regs.state)
    ensures Early(m.regs.state) && !x.Space? ==> m'.regs.state == Misc(1)
    ensures m.regs.state == Misc(1) ==> m'.regs.state == Misc(1)
  {
    hide *;
    AtFields(m, m.regs.state, []);
    BackIs(m.regs.state);
    MiscParts(x);
    MiscText(x);
    MiscIdles();
    EarlyStates();
    if Early(m.regs.state) { EarlyIs(m.regs.state); }
    if x.Space? {
      if m.regs.state == Init {
        FirstSpace(m, x.b);
        m' := InState(m, Misc(0));
        StateIs(m, Misc(0));
        ClosedAt(m', Misc(0), []);
      } else {
        EarlyCases(m.regs.state);
        m' := m;
        Waits(m, [x.b]);
      }
    } else if x.Remark? {
      m' := CommentIsRead(m, x.bytes, []);
      AtFields(m', Back(m.regs.state), []);
    } else if x.Order? {
      m' := InstructionIsRead(m, x.pi, []);
      AtFields(m', Back(m.regs.state), []);
    } else {
      m' := DoctypeIsRead(m, x.parts);
      AtFields(m', Misc(1), []);
    }
  }

  lemma EarlyStates()
    ensures Early(Misc(0)) && Early(Misc(1)) && Early(Init) && !Early(Misc(3))
  {
  }

  lemma EarlyCases(s: St)
    ensures Early(s) ==> s == Init || s == Misc(0) || s == Misc(1)
  {
  }

  lemma MiscsParts(xs: seq<Misc>)
    requires TakenMiscs(xs) && xs != []
    ensures TakenMisc(xs[0]) && TakenMiscs(xs[1..]) && (NoDoctype(xs) ==> !xs[0].Doctype? && NoDoctype(xs[1..]))
  {
    hide TakenMisc;
  }

  lemma MiscsText(xs: seq<Misc>)
    requires xs != []
    ensures WriteMiscs(xs) == WriteMisc(xs[0]) + WriteMiscs(xs[1..])
    ensures MiscsReports(xs) == MiscReports(xs[0]) + MiscsReports(xs[1..])
  {
    hide WriteMisc, MiscReports;
  }

  lemma NoMiscs(xs: seq<Misc>)
    requires xs == []
    ensures WriteMiscs(xs) == [] && MiscsReports(xs) == []
  {
  }

  lemma {:induction false} MiscsAreRead(m: Machine, xs: seq<Misc>) returns (m': Machine)
    requires (Early(m.regs.state) || m.regs.state == Misc(3)) && At(m, m.regs.state, []) && TakenMiscs(xs)
    requires (m.regs.state == Misc(3) ==> NoDoctype(xs)) && Roomy(m, |WriteMiscs(xs)|)
    ensures Trip(m, WriteMiscs(xs), m', MiscsReports(xs)) && At(m', m'.regs.state, []) && m'.room == m.room
    ensures if m.regs.state == Misc(3) then m'.regs.state == Misc(3) else Early(m'.regs.state)
    decreases |xs|
  {
    hide *;
    EarlyStates();
    if xs == [] {
      m' := m;
      NoMiscs(xs);
      Nowhere(m);
    } else {
      var x, rest := xs[0], xs[1..];
      MiscsParts(xs);
      MiscsText(xs);
      LessRoom(m, |WriteMiscs(xs)|, |WriteMisc(x)|);
      var m1 := MiscIsRead(m, x);
      RoomLeft(m, WriteMisc(x), m1, MiscReports(x), |WriteMiscs(rest)|);
      m' := MiscsAreRead(m1, rest);
      Join(m, WriteMisc(x), m1, MiscReports(x), WriteMiscs(rest), m', MiscsReports(rest));
    }
  }
}
