// The completeness of the XML parser: every document of the grammar is accepted, and reported piece by piece, whatever
// bytes its line ends are written with.
module XmlReading {
  import opened Bytes
  import opened Sequences
  import opened XmlStates
  import opened XmlAutomaton
  import opened XmlDocuments
  import opened XmlTaken
  import opened XmlSteps
  import opened XmlRuns
  import opened XmlMarkup
  import opened XmlInstructions
  import opened XmlElements
  import opened XmlProlog
  import opened XmlDeclaration

  // ---------------------------------------------------------------- the parts of a document

  function MarkBytes(d: Document): seq<Byte> { if d.mark then [0xEF, 0xBB, 0xBF] else [] }

  function DeclarationBytes(d: Document): seq<Byte> {
    if d.declaration.Some? then WriteDeclaration(d.declaration.value) else []
  }

  /** In front of the prolog. */
  function HeadBytes(d: Document): seq<Byte> { MarkBytes(d) + (d.lead + DeclarationBytes(d)) }

  lemma HeadText(d: Document)
    ensures MarkBytes(d) == if d.mark then [0xEF, 0xBB, 0xBF] else []
    ensures DeclarationBytes(d) == if d.declaration.Some? then WriteDeclaration(d.declaration.value) else []
    ensures HeadBytes(d) == MarkBytes(d) + (d.lead + DeclarationBytes(d))
    ensures |HeadBytes(d)| == |MarkBytes(d)| + |d.lead| + |DeclarationBytes(d)|
  {
    hide WriteDeclaration;
  }

  lemma DocumentText(d: Document)
    ensures Write(d) == HeadBytes(d) + (WriteMiscs(d.prolog) + (WriteRoot(d.root, d.cut) + WriteMiscs(d.after)))
    ensures Reports(d) == MiscsReports(d.prolog) + (NodeReports(d.root) + MiscsReports(d.after))
    ensures |Write(d)| == |HeadBytes(d)| + |WriteMiscs(d.prolog)| + |WriteRoot(d.root, d.cut)| + |WriteMiscs(d.after)|
  {
    WrittenAs(d);
    HeadText(d);
    hide *;
    var body := WriteMiscs(d.prolog) + (WriteRoot(d.root, d.cut) + WriteMiscs(d.after));
    Assoc(d.lead, DeclarationBytes(d), body);
    Assoc(MarkBytes(d), d.lead + DeclarationBytes(d), body);
  }

  lemma WrittenAs(d: Document)
    ensures Write(d) == MarkBytes(d) +
      (d.lead + (DeclarationBytes(d) + (WriteMiscs(d.prolog) + (WriteRoot(d.root, d.cut) + WriteMiscs(d.after)))))
    ensures Reports(d) == MiscsReports(d.prolog) + (NodeReports(d.root) + MiscsReports(d.after))
  {
    hide WriteDeclaration, WriteMiscs, WriteRoot, MiscsReports, NodeReports;
  }

  lemma DocumentParts(d: Document)
    requires TakenDocument(d)
    ensures Blanks(d.lead) && (d.declaration.Some? ==> GoodDeclaration(d.declaration.value))
    ensures TakenMiscs(d.prolog) && TakenNode(d.root) && TakenMiscs(d.after) && NoDoctype(d.after)
    ensures RootTaken(d.root, d.cut)
  {
    hide Blanks, GoodDeclaration, TakenMiscs, TakenNode, NoDoctype;
  }

  /** The root is an element; its end tag has no white space, or one in place of its last byte. */
  predicate RootTaken(n: Node, cut: bool) {
    && (n.Empty? || n.Element?)
    && if cut then n.Element? && |n.last| == 1 else n.Element? ==> n.last == []
  }

  lemma RootCases(n: Node, cut: bool)
    requires RootTaken(n, cut)
    ensures n.Empty? || n.Element?
    ensures cut ==> n.Element? && |n.last| == 1
    ensures !cut && n.Element? ==> n.last == []
  {
  }

  // ---------------------------------------------------------------- the start

  lemma StartIs(room: nat)
    ensures At(Start(room), Init, []) && Depth(Start(room)) == 0
  {
    FlatOfNone();
    NoPrefix<Name>([]);
  }

  lemma FirstOfMark(m: Machine)
    requires m.regs.state == Init && m.ignore == 0
    ensures Trip(m, [0xEF], Expecting(m, Misc(0), [0xBB, 0xBF]), [])
  {
    MiscRow(m.regs, 0xEF);
    hide OnByte, Trip;
    Silent(m, 0xEF, Expecting(m, Misc(0), [0xBB, 0xBF]).regs);
  }

  lemma MarkIsPlain()
    ensures NUL !in [0xBB, 0xBF] && 13 !in [0xBB, 0xBF]
  {
  }

  lemma MarkIsRead(m: Machine) returns (m': Machine)
    requires At(m, Init, [])
    ensures Trip(m, [0xEF, 0xBB, 0xBF], m', []) && At(m', Misc(0), []) && m'.room == m.room
  {
    hide *;
    AtFields(m, Init, []);
    FirstOfMark(m);
    MarkIsPlain();
    Expected(m, Misc(0), [0xBB, 0xBF]);
    var m1 := Expecting(m, Misc(0), [0xBB, 0xBF]);
    m' := Spelled(m1);
    QuietFirst(m, [0xEF], m1, [0xBB, 0xBF], m', []);
    assert [0xEF] + [0xBB, 0xBF] == [0xEF, 0xBB, 0xBF];
    RegsAre(m, m');
    StillAt(m, m', Misc(0), []);
  }

  lemma LeadIsRead(m: Machine, lead: seq<Byte>) returns (m': Machine)
    requires (m.regs.state == Init || m.regs.state == Misc(0)) && At(m, m.regs.state, []) && Blanks(lead)
    ensures Trip(m, lead, m', []) && (m'.regs.state == Init || m'.regs.state == Misc(0)) && At(m', m'.regs.state, []) && m'.room == m.room
    ensures lead != [] ==> m'.regs.state == Misc(0)
    ensures lead == [] ==> m' == m
  {
    hide *;
    AtFields(m, m.regs.state, []);
    MiscIdles();
    m' := m;
    if lead == [] {
      Nowhere(m);
    } else if m.regs.state == Init {
      BlankParts(lead);
      m' := InState(m, Misc(0));
      FirstSpace(m, lead[0]);
      StateIs(m, Misc(0));
      Waits(m', lead[1..]);
      ClosedAt(m', Misc(0), []);
      QuietFirst(m, [lead[0]], m', lead[1..], m', []);
      assert [lead[0]] + lead[1..] == lead;
    } else {
      Waits(m, lead);
    }
  }

  lemma BlankParts(w: seq<Byte>)
    requires Blanks(w) && w != []
    ensures Blanks([w[0]]) && Blanks(w[1..])
  {
  }

  /** The byte order mark, white space and the declaration. */
  lemma HeadIsRead(m: Machine, d: Document) returns (m': Machine)
    requires At(m, Init, []) && Blanks(d.lead) && (d.declaration.Some? ==> GoodDeclaration(d.declaration.value))
    requires Roomy(m, |HeadBytes(d)|)
    ensures Trip(m, HeadBytes(d), m', []) && Early(m'.regs.state) && At(m', m'.regs.state, []) && m'.room == m.room
  {
    hide *;
    HeadText(d);
    EarlyStates();
    AtFields(m, Init, []);
    Nowhere(m);
    var m1 := m;
    if d.mark { m1 := MarkIsRead(m); }
    AtFields(m1, if d.mark then Misc(0) else Init, []);
    RoomLeft(m, MarkBytes(d), m1, [], |d.lead| + |DeclarationBytes(d)|);
    var m2 := LeadIsRead(m1, d.lead);
    RoomLeft(m1, d.lead, m2, [], |DeclarationBytes(d)|);
    Nowhere(m2);
    m' := m2;
    if d.declaration.Some? { m' := DeclarationIsRead(m2, d.declaration.value); }
    AtFields(m', if d.declaration.Some? then Misc(1) else m2.regs.state, []);
    QuietFirst(m1, d.lead, m2, DeclarationBytes(d), m', []);
    QuietFirst(m, MarkBytes(d), m1, d.lead + DeclarationBytes(d), m', []);
  }

  // ---------------------------------------------------------------- the rest

  lemma EarlyIsNotLate(s: St)
    requires Early(s)
    ensures s != Misc(3)
  {
  }

  lemma WholeRoot(n: Node)
    ensures WriteRoot(n, false) == WriteNode(n)
  {
    hide WriteNode;
  }

  lemma CutRoot(n: Node)
    requires n.Element?
    ensures WriteRoot(n, true) == [0x3C] + (Beginning(n) + n.last)
  {
    BeginningText(n);
    hide WriteNode, Beginning;
    var text := WriteNode(n);
    assert text == [0x3C] + (Beginning(n) + n.last) + [0x3E];
  }

  lemma OneBlank(last: seq<Byte>)
    requires |last| == 1 && Blanks(last)
    ensures IsSP(last[0]) && [last[0]] == last && last[0] != 0x3E
  {
  }

  lemma CutIsRead(m: Machine, s: St, n: Node) returns (m': Machine)
    requires (s == Le(0) || s == Le(1)) && At(m, s, []) && n.Element? && TakenNode(n) && |n.last| == 1 && Roomy(m, |Beginning(n)|)
    ensures Trip(m, Beginning(n) + n.last, m', NodeReports(n)) && At(m', Misc(3), []) && m'.room == m.room
  {
    hide *;
    ElementParts(n);
    BeginningText(n);
    OneBlank(n.last);
    var m1 := BeginningIsRead(m, s, n, []);
    EndTagCloses(m1, n.last[0], n.name, []);
    m' := InState(m1, Misc(3)).(open := [], tag := []);
    StateIs(m1, Misc(3));
    ClosedAt(m', Misc(3), []);
    Join(m, Beginning(n), m1, BeginningReports(n), n.last, m', [Mark(ElemEnd, [])]);
  }

  lemma RootIsRead(m: Machine, n: Node, cut: bool) returns (m': Machine)
    requires Early(m.regs.state) && At(m, m.regs.state, []) && TakenNode(n) && RootTaken(n, cut) && Roomy(m, |WriteRoot(n, cut)|)
    ensures Trip(m, WriteRoot(n, cut), m', NodeReports(n)) && At(m', Misc(3), []) && m'.room == m.room
  {
    hide *;
    var s := m.regs.state;
    EarlyIs(s);
    AtFields(m, s, []);
    RootCases(n, cut);
    LeafText(n);
    var m1 := InState(m, Angle(s));
    AngleOpens(m);
    AngleAt(m, s, []);
    if cut {
      CutRoot(n);
      RoomLeft(m, [0x3C], m1, [], |Beginning(n) + n.last|);
      LessRoom(m1, |Beginning(n) + n.last|, |Beginning(n)|);
      m' := CutIsRead(m1, Angle(s), n);
      QuietFirst(m, [0x3C], m1, Beginning(n) + n.last, m', NodeReports(n));
    } else {
      WholeRoot(n);
      RoomLeft(m, [0x3C], m1, [], |WriteNode(n)| - 1);
      if n.Empty? { m' := EmptyIsRead(m1, Angle(s), n, []); } else { m' := ElementIsRead(m1, Angle(s), n, []); }
      ReadParts(m1, n, [], m');
      OutsideAll();
      QuietFirst(m, [0x3C], m1, WriteNode(n)[1..], m', NodeReports(n));
    }
  }

  lemma OutsideAll()
    ensures Outside([]) == Misc(3)
  {
  }

  /** The whole text. */
  lemma DocumentIsRead(m: Machine, d: Document) returns (m': Machine)
    requires At(m, Init, []) && TakenDocument(d) && Roomy(m, |Write(d)|)
    ensures Trip(m, Write(d), m', Reports(d)) && At(m', Misc(3), [])
  {
    hide *;
    DocumentText(d);
    DocumentParts(d);
    var head, prolog, root, after := HeadBytes(d), WriteMiscs(d.prolog), WriteRoot(d.root, d.cut), WriteMiscs(d.after);
    LessRoom(m, |Write(d)|, |head|);
    var m1 := HeadIsRead(m, d);
    RoomLeft(m, head, m1, [], |prolog| + |root| + |after|);
    LessRoom(m1, |prolog| + |root| + |after|, |prolog|);
    EarlyIsNotLate(m1.regs.state);
    var m2 := MiscsAreRead(m1, d.prolog);
    RoomLeft(m1, prolog, m2, MiscsReports(d.prolog), |root| + |after|);
    LessRoom(m2, |root| + |after|, |root|);
    var m3 := RootIsRead(m2, d.root, d.cut);
    AtFields(m3, Misc(3), []);
    RoomLeft(m2, root, m3, NodeReports(d.root), |after|);
    m' := MiscsAreRead(m3, d.after);
    Join(m2, root, m3, NodeReports(d.root), after, m', MiscsReports(d.after));
    Join(m1, prolog, m2, MiscsReports(d.prolog), root + after, m', NodeReports(d.root) + MiscsReports(d.after));
    QuietFirst(m, head, m1, prolog + (root + after), m', Reports(d));
  }

  // ---------------------------------------------------------------- line ends

  lemma PerformIgnores(m: Machine, a: Action, c: Byte, ignore: Byte)
    ensures Perform(m.(ignore := ignore), a, c) == Outcome(Perform(m, a, c).m.(ignore := ignore), Perform(m, a, c).ret)
  {
    hide Accepted, CodePoint, SaysXml, Grown;
    SameDepth(m, m.(ignore := ignore));
    hide Depth;
  }

  /** A carriage return does what a line feed does, and is told the same. */
  lemma ReturnIsFeed(m: Machine)
    requires m.ignore == 0 || m.ignore == 10
    ensures var o, o0 := Step(m, 13), Step(m.(ignore := 0), 10);
      o.ret == o0.ret && (!Negative(o.ret) ==> o0.m == o.m.(ignore := 0) && o.m.ignore == 10 && Told(m, 13) == Told(m.(ignore := 0), 10))
  {
    hide OnByte, Perform, SetUtf8, CodePoint, Negative, Data;
    if OnByte(m.regs, 10).React? {
      var r := OnByte(m.regs, 10);
      PerformIgnores(m.(regs := r.regs), r.action, 10, 10);
      PerformIgnores(m.(regs := r.regs), r.action, 10, 0);
    }
  }

  /** Any other byte, unless it is the line feed behind a carriage return. */
  lemma OtherBytes(m: Machine, b: Byte)
    requires (m.ignore == 0 || m.ignore == 10) && b != 13 && !(m.ignore == 10 && b == 10)
    ensures var o, o0 := Step(m, b), Step(m.(ignore := 0), b);
      o.ret == o0.ret && (!Negative(o.ret) ==> o0.m == o.m && o.m.ignore == 0 && Told(m, b) == Told(m.(ignore := 0), b))
  {
    hide OnByte, Perform, SetUtf8, CodePoint, Data;
    if OnByte(m.regs, b).React? {
      var r := OnByte(m.regs, b);
      PerformIgnores(m.(regs := r.regs), r.action, b, 0);
    }
    assert m.(ignore := 0).(ignore := 0) == m.(ignore := 0);
  }

  lemma FeedIsLeftOut(m: Machine)
    requires m.ignore == 10
    ensures Step(m, 10) == Outcome(m.(ignore := 0), Ok) && Told(m, 10) == []
  {
  }

  /** The parser takes a text like the text with its line ends replaced. */
  lemma {:induction false} LineEndsAreNormal(m: Machine, text: seq<Byte>, pending: bool)
    requires m.ignore == if pending then 10 else 0
    ensures var w, w0 := Go(m, text), Go(m.(ignore := 0), LineEnds(text, pending));
      w.ok == w0.ok && (w.ok ==> w.told == w0.told && w.m.(ignore := 0) == w0.m)
    decreases |text|
  {
    hide Step, Told;
    if text == [] {
    } else if text[0] == 13 {
      ReturnIsFeed(m);
      if !Negative(Step(m, 13).ret) { LineEndsAreNormal(Step(m, 13).m, text[1..], true); }
      FirstOf(0x0A, LineEnds(text[1..], true));
    } else if pending && text[0] == 10 {
      FeedIsLeftOut(m);
      LineEndsAreNormal(m.(ignore := 0), text[1..], false);
      NoPrefix(Go(m.(ignore := 0), text[1..]).told);
    } else {
      OtherBytes(m, text[0]);
      if !Negative(Step(m, text[0]).ret) { LineEndsAreNormal(Step(m, text[0]).m, text[1..], false); }
      FirstOf(text[0], LineEnds(text[1..], false));
    }
  }

  lemma FirstOf(b: Byte, rest: seq<Byte>)
    ensures ([b] + rest)[0] == b && ([b] + rest)[1..] == rest
  {
  }

  // ---------------------------------------------------------------- completeness

  /** With room for the names, the parser takes every text of these documents to its end without an error, and reports
      what the document says. */
  lemma TakenAreRead(room: nat, text: seq<Byte>, d: Document)
    requires TakenDocument(d) && LineEnds(text, false) == Write(d) && room > 2 * |Write(d)| + 2
    ensures !Negative(Feed(room, text).ret) && Eof(Feed(room, text).m) == Ok && Heard(room, text) == Reports(d)
  {
    hide *;
    var m := Start(room);
    StartIs(room);
    StartIsRoomy(room, |Write(d)|);
    var m' := DocumentIsRead(m, d);
    AtFields(m', Misc(3), []);
    var w := TripOf(m, text, Write(d), m', Reports(d));
    FeedOfNothing(room);
    FeedsOn(room, [], text, w.m, Reports(d));
    NoPrefix(text);
    NoPrefix(Reports(d));
    EofOf(Feed(room, text).m);
  }

  /** So it takes every document of the standard in which there is nothing that it does not know. */
  lemma DocumentsAreRead(room: nat, text: seq<Byte>, d: Document)
    requires GoodDocument(d) && DocumentKnown(d) && LineEnds(text, false) == Write(d) && room > 2 * |Write(d)| + 2
    ensures !Negative(Feed(room, text).ret) && Eof(Feed(room, text).m) == Ok && Heard(room, text) == Reports(d)
  {
    hide *;
    DocumentTaken(d);
    TakenAreRead(room, text, d);
  }

  lemma StartIsRoomy(room: nat, n: nat)
    requires room > 2 * n + 2
    ensures Roomy(Start(room), n)
  {
    StartIs(room);
    hide Depth, At;
  }

  lemma TripOf(m: Machine, text: seq<Byte>, normal: seq<Byte>, m': Machine, told: seq<Report>) returns (w: Way)
    requires m.ignore == 0 && LineEnds(text, false) == normal && Trip(m, normal, m', told)
    ensures Trip(m, text, w.m, told) && w.m.regs == m'.regs
  {
    LineEndsAreNormal(m, text, false);
    assert m.(ignore := 0) == m;
    w := Go(m, text);
    hide Go;
  }

  lemma FeedOfNothing(room: nat)
    ensures Feed(room, []).m == Start(room) && !Negative(Feed(room, []).ret) && Heard(room, []) == [] && Start(room).ignore == 0
  {
  }

  lemma EofOf(m: Machine)
    requires m.regs.state == Misc(3)
    ensures Eof(m) == Ok
  {
  }
}
