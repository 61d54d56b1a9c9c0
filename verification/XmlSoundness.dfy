// The soundness of the XML parser: every text that it takes to the end is that of a document in its grammar, and what it
// reports is what the document says.
module XmlSoundness {
  import opened Bytes
  import opened Options
  import opened Sequences
  import opened XmlStates
  import opened XmlAutomaton
  import opened XmlDocuments
  import opened XmlTaken
  import opened XmlSteps
  import opened XmlRuns
  import opened XmlMarkup
  import opened XmlInstructions
  import opened XmlElements
  import opened XmlProlog
  import opened XmlDeclaration
  import opened XmlReading
  import opened XmlShortfalls
  import opened XmlFinding
  import opened XmlOpening

  // ---------------------------------------------------------------- end tags

  lemma EndReacts(r: Regs, c: Byte)
    requires r.state.Etag? && OnByte(r, c).React?
    ensures r.state == Etag(0) ==> IsNameStart(c)
    ensures r.state == Etag(1) ==> IsName(c) || IsSP(c) || c == 0x3E
    ensures r.state == Etag(2) ==> IsSP(c) || c == 0x3E
  {
    ElemRow(r, c);
    hide OnByte, IsName, IsSP, IsNameStart;
  }

  /** Another byte than the next one of the name is an error. */
  lemma MustMatch(m: Machine, c: Byte, name: Name, outer: seq<Name>)
    requires (m.regs.state == Etag(0) || m.regs.state == Etag(1)) && Plainly(m, c) && m.open == outer + [name] && m.tag <= name
    requires OnByte(m.regs, c).React? && !Negative(Step(m, c).ret)
    ensures |m.tag| < |name| ==> name[|m.tag|] == c && IsName(c) && (m.regs.state == Etag(0) ==> IsNameStart(c))
    ensures |m.tag| == |name| && m.regs.state == Etag(1) ==> IsSP(c) || c == 0x3E
  {
    NameIs(c);
    EndReacts(m.regs, c);
    ElemRow(m.regs, c);
    hide OnByte, IsName, IsSP, IsNameStart, NameByte, NameStart, CloseTop;
    assert Last(outer + [name]) == name;
    if IsName(c) {
      StepIs(m, c, m.regs.(state := Etag(1)), CloseChar);
    } else {
      StepIs(m, c, m.regs.(state := if c == 0x3E then Misc(2) else Etag(2)), CloseEnd);
    }
  }

  lemma Matched(name: Name, tag: Name)
    requires tag < name
    ensures tag + [name[|tag|]] <= name && (|tag| + 1 == |name| ==> tag + [name[|tag|]] == name)
  {
    assert tag == name[..|tag|];
  }

  /** The name of an end tag. */
  lemma {:induction false} FindEndName(m: Machine, t: seq<Byte>, name: Name, outer: seq<Name>) returns (rest: seq<Byte>)
    requires (m.regs.state == Etag(0) || m.regs.state == Etag(1)) && Left(m, t) && m.open == outer + [name] && m.tag < name
    requires IsNameOf(name)
    ensures t == name[|m.tag|..] + rest
    decreases |t|
  {
    hide *;
    RoomOf(m, t, 0);
    MustGo(m, t);
    MustMatch(m, t[0], name, outer);
    NameIs(t[0]);
    EndTagByte(m, t[0], name, outer);
    var m1 := InState(m, Etag(1)).(tag := m.tag + [t[0]]);
    StateIs(m, Etag(1));
    FirstAndRest(t);
    LeftAfter(m, [t[0]], m1, [], t[1..]);
    Matched(name, m.tag);
    if |m.tag| + 1 == |name| {
      rest := t[1..];
      assert name[|m.tag|..] == [t[0]];
    } else {
      rest := FindEndName(m1, t[1..], name, outer);
      assert name[|m.tag|..] == [t[0]] + name[|m.tag| + 1..];
      Assoc([t[0]], name[|m.tag| + 1..], rest);
    }
  }

  /** What follows the name of an end tag. */
  lemma FindEnd(m: Machine, t: seq<Byte>, name: Name, outer: seq<Name>) returns (last: seq<Byte>, cut: bool, rest: seq<Byte>)
    requires m.regs.state == Etag(1) && Left(m, t) && m.open == outer + [name] && m.tag == name && m.extra == []
    ensures t == last + (if cut then rest else [0x3E] + rest) && Blanks(last)
    ensures if outer == [] then (if cut then |last| == 1 else last == []) else !cut
  {
    hide *;
    RoomOf(m, t, 0);
    MustGo(m, t);
    MustMatch(m, t[0], name, outer);
    FirstAndRest(t);
    NoBlanks();
    if t[0] == 0x3E {
      last, cut, rest := [], false, t[1..];
      NoPrefix(t);
    } else if outer == [] {
      last, cut, rest := [t[0]], true, t[1..];
      BlankIs(t[0]);
    } else {
      EndTagCloses(m, t[0], name, outer);
      var m1 := InState(m, Etag(2)).(open := outer, tag := []);
      StateIs(m, Etag(2));
      LeftAfter(m, [t[0]], m1, [Mark(ElemEnd, [])], t[1..]);
      var w, v := FindBlanks(t[1..]);
      ElemIdles();
      Waits(m1, w);
      LeftAfter(m1, w, m1, [], v);
      MustGo(m1, v);
      EndReacts(m1.regs, v[0]);
      FirstAndRest(v);
      last, cut, rest := [t[0]] + w, false, v[1..];
      BlankBehind(t[0], w);
      Assoc([t[0]], w, [0x3E] + rest);
    }
  }

  lemma NoBlanks()
    ensures Blanks([])
  {
  }

  lemma BlankIs(c: Byte)
    requires IsSP(c)
    ensures Blanks([c])
  {
  }

  // ---------------------------------------------------------------- elements and content

  lemma LessReacts(r: Regs, c: Byte)
    requires r.state.Le? && OnByte(r, c).React?
    ensures r.state == Le(0) || r.state == Le(1) ==> c == 0x21 || c == 0x3F || NameStart(c)
    ensures r.state == Le(2) ==> c == 0x21 || c == 0x3F || c == 0x2F || NameStart(c)
    ensures r.state == Le(3) ==> c == 0x21 || c == 0x3F
  {
    NameIs(c);
    LessRow(r, c);
    hide OnByte, NameStart, IsNameStart, NameByte, IsName;
  }

  lemma EmptyReacts(r: Regs, c: Byte)
    requires r.state == Elem(3) && OnByte(r, c).React?
    ensures c == 0x3E
  {
    ElemRow(r, c);
    hide OnByte;
  }

  /** Behind the opening angle bracket of an element; `cut` is for the root alone. */
  ghost predicate FoundElement(n: Node, cut: bool, t: seq<Byte>, rest: seq<Byte>, outer: seq<Name>) {
    && TakenNode(n) && WriteRoot(n, cut) + rest == [0x3C] + t
    && (if outer == [] then RootTaken(n, cut) else !cut && (n.Empty? || n.Element?))
  }

  lemma EmptyFound(n: Node, t: seq<Byte>, rest: seq<Byte>, outer: seq<Name>)
    requires n.Empty? && IsNameOf(n.name) && TakenAttributes(n.attributes) && Blanks(n.space)
    requires t == n.name + (WriteAttributes(n.attributes) + (n.space + ([0x2F] + ([0x3E] + rest))))
    ensures FoundElement(n, false, t, rest, outer)
  {
    EmptyText(n);
    WholeRoot(n);
    EmptyFit(n);
    hide IsNameOf, TakenAttributes, Blanks, WriteAttributes, WriteNode, WriteRoot, TakenNode;
    var end: seq<Byte> := [0x2F, 0x3E];
    assert [0x2F] + ([0x3E] + rest) == end + rest;
    Assoc(n.space, end, rest);
    Assoc(WriteAttributes(n.attributes), n.space + end, rest);
    Assoc(n.name, WriteAttributes(n.attributes) + (n.space + end), rest);
    Assoc([0x3C], n.name + (WriteAttributes(n.attributes) + (n.space + end)), rest);
  }

  lemma EmptyFit(n: Node)
    requires n.Empty? && IsNameOf(n.name) && TakenAttributes(n.attributes) && Blanks(n.space)
    ensures TakenNode(n)
  {
    hide IsNameOf, TakenAttributes, Blanks;
  }

  lemma ElementFit(n: Node)
    requires n.Element? && IsNameOf(n.name) && TakenAttributes(n.attributes) && Blanks(n.space) && TakenContent(n.content) && Blanks(n.last)
    ensures TakenNode(n)
  {
    hide IsNameOf, TakenAttributes, Blanks, TakenContent;
  }

  lemma ElementFound(n: Node, cut: bool, t: seq<Byte>, rest: seq<Byte>, outer: seq<Name>)
    requires n.Element? && TakenNode(n)
    requires t == Beginning(n) + (n.last + (if cut then rest else [0x3E] + rest))
    requires if outer == [] then (if cut then |n.last| == 1 else n.last == []) else !cut
    ensures FoundElement(n, cut, t, rest, outer)
  {
    BeginningText(n);
    WholeRoot(n);
    CutRoot(n);
    hide Beginning, WriteNode, WriteRoot, TakenNode;
    var b := Beginning(n);
    if cut {
      Assoc(b, n.last, rest);
      Assoc([0x3C], b + n.last, rest);
    } else {
      Assoc(n.last, [0x3E], rest);
      Assoc(b, n.last + [0x3E], rest);
      Assoc([0x3C], b + (n.last + [0x3E]), rest);
    }
  }

  lemma BeginningJoins(n: Node, v: seq<Byte>)
    requires n.Element?
    ensures Beginning(n) + v ==
      n.name + (WriteAttributes(n.attributes) + (n.space + ([0x3E] + (WriteContent(n.content) + ([0x3C, 0x2F] + (n.name + v))))))
  {
    BeginningIs(n);
    hide *;
    var end := [0x3C, 0x2F] + n.name;
    Assoc([0x3C, 0x2F], n.name, v);
    Assoc(WriteContent(n.content), end, v);
    Assoc([0x3E], WriteContent(n.content) + end, v);
    Assoc(n.space, [0x3E] + (WriteContent(n.content) + end), v);
    Assoc(WriteAttributes(n.attributes), n.space + ([0x3E] + (WriteContent(n.content) + end)), v);
    Assoc(n.name, WriteAttributes(n.attributes) + (n.space + ([0x3E] + (WriteContent(n.content) + end))), v);
  }

  /** The end tag of an element, from its opening angle bracket on. */
  lemma FindEndTag(m: Machine, t: seq<Byte>, name: Name, outer: seq<Name>) returns (last: seq<Byte>, cut: bool, rest: seq<Byte>)
    requires At(m, Misc(2), outer + [name]) && IsNameOf(name) && Left(m, [0x3C, 0x2F] + t)
    ensures t == name + (last + (if cut then rest else [0x3E] + rest)) && Blanks(last)
    ensures if outer == [] then (if cut then |last| == 1 else last == []) else !cut
  {
    hide *;
    AtFields(m, Misc(2), outer + [name]);
    InContent(m);
    var m1, m2 := InState(m, Le(2)), InState(m, Etag(0));
    AngleOpens(m);
    StateIs(m, Le(2));
    Slash(m1);
    StateTwice(m, Le(2), Etag(0));
    StateIs(m, Etag(0));
    QuietFirst(m, [0x3C], m1, [0x2F], m2, []);
    assert [0x3C] + [0x2F] == [0x3C, 0x2F];
    LeftAfter(m, [0x3C, 0x2F], m2, [], t);
    NameNotEmpty(name);
    var v := FindEndName(m2, t, name, outer);
    assert name[0..] == name;
    EndTagBegins(m, name, outer);
    var m3 := InState(m, Etag(1)).(tag := name);
    StateIs(m, Etag(1));
    Assoc([0x3C, 0x2F], name, v);
    LeftAfter(m, [0x3C, 0x2F] + name, m3, [], v);
    last, cut, rest := FindEnd(m3, v, name, outer);
  }

  lemma NameNotEmpty(name: Name)
    requires IsNameOf(name)
    ensures [] < name && name != []
  {
  }

  lemma {:induction false} FindElement(m: Machine, s: St, t: seq<Byte>, outer: seq<Name>) returns (n: Node, cut: bool, rest: seq<Byte>)
    requires (s == Le(0) || s == Le(1) || s == Le(2)) && At(m, s, outer) && Left(m, t) && t != [] && NameStart(t[0])
    ensures FoundElement(n, cut, t, rest, outer)
    decreases |t|, 0
  {
    hide *;
    AtFields(m, s, outer);
    FirstAndRest(t);
    var more, v := FindName(t[1..]);
    var name := [t[0]] + more;
    NameFrom(t[0], more);
    Assoc([t[0]], more, v);
    RoomOf(m, t, |name|);
    var m1 := OpensName(m, s, name, outer);
    AtFields(m1, Elem(0), outer + [name]);
    LeftAfter(m, name, m1, [], v);
    var attributes, space, c, u := FindAttributes(m1, v, name, outer);
    RoomOf(m1, v, |WriteAttributes(attributes)|);
    var m2 := TagIsRead(m1, attributes, space, c, name, outer);
    AtFields(m2, if c == 0x2F then Elem(3) else Misc(2), outer + [name]);
    TagSplits(WriteAttributes(attributes), space, c, u);
    LeftAfter(m1, WriteAttributes(attributes) + (space + [c]), m2, [Mark(ElemStart, name)] + AttributesReports(attributes), u);
    if c == 0x2F {
      MustGo(m2, u);
      EmptyReacts(m2.regs, u[0]);
      FirstAndRest(u);
      n, cut, rest := Node.Empty(name, attributes, space), false, u[1..];
      EmptyFound(n, t, rest, outer);
    } else {
      NotEmpty(outer, name);
      var nodes, x := FindContent(m2, u, outer + [name]);
      RoomOf(m2, u, |WriteContent(nodes)|);
      var m3 := ContentIsRead(m2, nodes, outer + [name]);
      AtFields(m3, Misc(2), outer + [name]);
      LeftAfter(m2, WriteContent(nodes), m3, ContentReports(nodes), [0x3C, 0x2F] + x);
      var last;
      last, cut, rest := FindEndTag(m3, x, name, outer);
      n := Node.Element(name, attributes, space, nodes, last);
      ElementFit(n);
      BeginningJoins(n, last + (if cut then rest else [0x3E] + rest));
      ElementFound(n, cut, t, rest, outer);
    }
  }

  lemma TagSplits(attributes: seq<Byte>, space: seq<Byte>, c: Byte, u: seq<Byte>)
    ensures attributes + (space + ([c] + u)) == (attributes + (space + [c])) + u
  {
    Assoc(space, [c], u);
    Assoc(attributes, space + [c], u);
  }

  lemma ContentLonger(n: Node, nodes: seq<Node>)
    requires TakenNode(n) && TakenContent(nodes)
    ensures TakenContent([n] + nodes) && WriteContent([n] + nodes) == WriteNode(n) + WriteContent(nodes)
  {
    hide TakenNode, WriteNode;
    assert ([n] + nodes)[1..] == nodes;
  }

  lemma EmptyContent()
    ensures TakenContent([]) && WriteContent([]) == []
  {
  }

  /** The content of an element, up to its end tag. */
  lemma {:induction false} FindContent(m: Machine, t: seq<Byte>, open: seq<Name>) returns (nodes: seq<Node>, rest: seq<Byte>)
    requires At(m, Misc(2), open) && open != [] && Left(m, t)
    ensures t == WriteContent(nodes) + ([0x3C, 0x2F] + rest) && TakenContent(nodes)
    decreases |t|, 2
  {
    hide *;
    AtFields(m, Misc(2), open);
    MustGo(m, t);
    EmptyContent();
    if |t| > 1 && t[0] == 0x3C && t[1] == 0x2F {
      nodes, rest := [], t[2..];
      assert t == [0x3C, 0x2F] + rest;
      NoPrefix(t);
    } else {
      var n, v := FindNode(m, t, open);
      RoomOf(m, t, |WriteNode(n)|);
      var m1 := NodeIsRead(m, n, open);
      AtFields(m1, Misc(2), open);
      LeftAfter(m, WriteNode(n), m1, NodeReports(n), v);
      nodes, rest := FindContent(m1, v, open);
      ContentLonger(n, nodes);
      Assoc(WriteNode(n), WriteContent(nodes), [0x3C, 0x2F] + rest);
      nodes := [n] + nodes;
    }
  }

  /** A node has been found at the front. */
  ghost predicate FoundNode(n: Node, t: seq<Byte>, rest: seq<Byte>) {
    TakenNode(n) && t == WriteNode(n) + rest && WriteNode(n) != []
  }

  lemma IsFound(n: Node, t: seq<Byte>, rest: seq<Byte>)
    requires FoundNode(n, t, rest)
    ensures TakenNode(n) && t == WriteNode(n) + rest && |rest| < |t|
  {
    hide TakenNode, WriteNode;
  }

  lemma TextFound(p: Piece, t: seq<Byte>, rest: seq<Byte>)
    requires TakenPiece(p) && t == WritePiece(p) + rest
    ensures FoundNode(Character(p), t, rest)
  {
    WritesPiece(p);
    hide TakenPiece, WritePiece;
  }

  lemma CDataFound(s: seq<Byte>, t: seq<Byte>, rest: seq<Byte>)
    requires TakenCData(s) && t == [0x3C, 0x21, 0x5B, 0x43, 0x44, 0x41, 0x54, 0x41, 0x5B] + (s + ([0x5D, 0x5D, 0x3E] + rest))
    ensures FoundNode(CData(s), t, rest)
  {
    Assoc(s, [0x5D, 0x5D, 0x3E], rest);
    Assoc([0x3C, 0x21, 0x5B, 0x43, 0x44, 0x41, 0x54, 0x41, 0x5B], s + [0x5D, 0x5D, 0x3E], rest);
    hide TakenCData;
  }

  lemma CommentJoins(s: seq<Byte>, rest: seq<Byte>)
    ensures WriteComment(s) + rest == [0x3C, 0x21, 0x2D, 0x2D] + (s + ([0x2D, 0x2D, 0x3E] + rest))
  {
    Assoc(s, [0x2D, 0x2D, 0x3E], rest);
    Assoc([0x3C, 0x21, 0x2D, 0x2D], s + [0x2D, 0x2D, 0x3E], rest);
  }

  lemma NoteFound(s: seq<Byte>, t: seq<Byte>, rest: seq<Byte>)
    requires TakenComment(s) && t == WriteComment(s) + rest
    ensures FoundNode(Note(s), t, rest)
  {
    hide TakenComment;
  }

  lemma ProcessFound(pi: Instruction, t: seq<Byte>, rest: seq<Byte>)
    requires TakenInstruction(pi) && t == WriteInstruction(pi) + rest
    ensures FoundNode(Process(pi), t, rest)
  {
    hide TakenInstruction;
  }

  lemma InnerFound(n: Node, t: seq<Byte>, rest: seq<Byte>, outer: seq<Name>)
    requires FoundElement(n, false, t, rest, outer)
    ensures FoundNode(n, [0x3C] + t, rest)
  {
    WholeRoot(n);
    ElementWritten(n);
    hide TakenNode, WriteNode, WriteRoot;
  }

  lemma ElementWritten(n: Node)
    ensures WriteNode(n) != []
  {
    LeafText(n);
    if n.Character? { WritesPiece(n.p); }
    hide WriteAttributes, WriteContent, WritePiece;
  }

  lemma MarkReacts(r: Regs, c: Byte)
    requires (r.state == Lee(1) || r.state == Lee(2)) && OnByte(r, c).React?
    ensures r.state == Lee(2) ==> c == 0x2D || c == 0x5B
    ensures r.state == Lee(1) ==> c == 0x2D || c == 0x44
  {
    MarkRow(r, c);
    hide OnByte;
  }

  lemma TextReacts(r: Regs, c: Byte)
    requires r.state == Misc(2) && Clean(c) && c != 0x3C && c != 0x26
    ensures TakenPiece(Plain(c)) && WritePiece(Plain(c)) == [c]
  {
  }

  /** A comment behind "<!-", in any place. */
  lemma FindRemark(m: Machine, t: seq<Byte>, open: seq<Name>, m2: Machine) returns (s: seq<Byte>, rest: seq<Byte>)
    requires Context(m.regs.state) && At(m, m.regs.state, open) && Left(m, [0x3C, 0x21, 0x2D] + t)
    requires Trip(m, [0x3C, 0x21, 0x2D], m2, []) && m2.regs.state == St.Comment(1) && m2.ignore == 0
    ensures [0x3C, 0x21, 0x2D] + t == WriteComment(s) + rest && TakenComment(s)
  {
    hide *;
    AtFields(m, m.regs.state, open);
    LeftAfter(m, [0x3C, 0x21, 0x2D], m2, [], t);
    MustGo(m2, t);
    CommentReacts(m2.regs, t[0]);
    var m3 := CommentStarts(m);
    var start: seq<Byte> := [0x3C, 0x21, 0x2D, 0x2D];
    FirstAndRest(t);
    assert [0x3C, 0x21, 0x2D] + t == start + t[1..] by { assert [0x3C, 0x21, 0x2D] + ([0x2D] + t[1..]) == start + t[1..]; }
    LeftAfter(m, start, m3, [], t[1..]);
    s, rest := FindComment(m3, t[1..]);
    CommentJoins(s, rest);
  }

  /** The machine behind "<!-". */
  lemma DashOpens(m: Machine) returns (m2: Machine)
    requires Context(m.regs.state) && m.ignore == 0
    ensures Trip(m, [0x3C, 0x21, 0x2D], m2, []) && m2.regs.state == St.Comment(1) && m2.ignore == 0
  {
    hide *;
    var s := m.regs.state;
    var m0 := InState(m, Angle(s));
    var m1 := m0.(regs := m0.regs.(state := Exclaimed(s), next := if s == Misc(3) then Misc(3) else m0.regs.next));
    m2 := m1.(regs := m1.regs.(state := St.Comment(1), next := Back(s)));
    StateIs(m, Angle(s));
    AngleOpens(m);
    Exclaims(m0, s);
    FirstDash(m1, s);
    QuietFirst(m0, [0x21], m1, [0x2D], m2, []);
    QuietFirst(m, [0x3C], m0, [0x21] + [0x2D], m2, []);
    assert [0x3C] + ([0x21] + [0x2D]) == [0x3C, 0x21, 0x2D];
  }

  /** A CDATA section behind "<![". */
  lemma FindSection(m: Machine, m2: Machine, t: seq<Byte>) returns (s: seq<Byte>, rest: seq<Byte>)
    requires m.regs.state == Misc(2) && m.ignore == 0 && m2.regs.state == Lee(2) && m2.ignore == 0
    requires Trip(m, [0x3C, 0x21], m2, []) && Left(m, [0x3C, 0x21, 0x5B] + t)
    ensures [0x3C, 0x21, 0x5B] + t == [0x3C, 0x21, 0x5B, 0x43, 0x44, 0x41, 0x54, 0x41, 0x5B] + (s + ([0x5D, 0x5D, 0x3E] + rest))
    ensures TakenCData(s)
  {
    hide *;
    var start: seq<Byte> := [0x3C, 0x21, 0x5B, 0x43, 0x44, 0x41, 0x54, 0x41, 0x5B];
    BracketStarts(m2);
    var m3 := Expecting(m2, Cd(0), SECTION);
    QuietFirst(m, [0x3C, 0x21], m2, [0x5B], m3, []);
    assert [0x3C, 0x21] + [0x5B] == [0x3C, 0x21, 0x5B];
    AwaitsWord(m2, Cd(0), SECTION);
    LeftAfter(m, [0x3C, 0x21, 0x5B], m3, [], t);
    SectionIsPlain();
    var v := FindWord(m3, t);
    var m4 := CdataStarts(m);
    assert [0x3C, 0x21, 0x5B] + (SECTION + v) == start + v by { SectionIsPlain(); assert [0x3C, 0x21, 0x5B] + SECTION == start; Assoc([0x3C, 0x21, 0x5B], SECTION, v); }
    LeftAfter(m, start, m4, [], v);
    s, rest := FindCData(m4, v);
  }

  lemma SectionIsPlain()
    ensures SECTION == [0x43, 0x44, 0x41, 0x54, 0x41, 0x5B] && SECTION != [] && NUL !in SECTION && 13 !in SECTION
  {
  }

  /** What begins with "<!" in the content of an element. */
  lemma FindMarked(m: Machine, t: seq<Byte>, open: seq<Name>) returns (n: Node, rest: seq<Byte>)
    requires At(m, Misc(2), open) && Left(m, [0x3C, 0x21] + t)
    ensures FoundNode(n, [0x3C, 0x21] + t, rest)
  {
    hide *;
    AtFields(m, Misc(2), open);
    InTheContent();
    var m1 := InState(m, Le(2));
    var m2 := m1.(regs := m1.regs.(state := Exclaimed(Misc(2)), next := m1.regs.next));
    ExclaimedIs();
    StateIs(m, Le(2));
    AngleOpens(m);
    Exclaims(m1, Misc(2));
    QuietFirst(m, [0x3C], m1, [0x21], m2, []);
    assert [0x3C] + [0x21] == [0x3C, 0x21];
    LeftAfter(m, [0x3C, 0x21], m2, [], t);
    MustGo(m2, t);
    MarkReacts(m2.regs, t[0]);
    FirstAndRest(t);
    var whole := [0x3C, 0x21] + t;
    assert whole == [0x3C, 0x21, t[0]] + t[1..];
    if t[0] == 0x2D {
      var m3 := DashOpens(m);
      var s;
      s, rest := FindRemark(m, t[1..], open, m3);
      n := Note(s);
      NoteFound(s, whole, rest);
    } else {
      var s;
      s, rest := FindSection(m, m2, t[1..]);
      n := CData(s);
      CDataFound(s, whole, rest);
    }
  }

  lemma ExclaimedIs()
    ensures Exclaimed(Misc(2)) == Lee(2) && Exclaimed(Misc(3)) == St.Comment(0) && Exclaimed(Dt(0)) == Dt(3)
  {
  }

  lemma {:induction false} FindNode(m: Machine, t: seq<Byte>, open: seq<Name>) returns (n: Node, rest: seq<Byte>)
    requires At(m, Misc(2), open) && open != [] && Left(m, t) && !(|t| > 1 && t[0] == 0x3C && t[1] == 0x2F)
    ensures FoundNode(n, t, rest) && TakenNode(n) && t == WriteNode(n) + rest && |rest| < |t|
    decreases |t|, 1
  {
    hide *;
    AtFields(m, Misc(2), open);
    InTheContent();
    MustGo(m, t);
    FirstAndRest(t);
    if t[0] == 0x26 {
      TextHere(m);
      var r;
      r, rest := FindRefer(m, t);
      n := Character(Refer(r));
      TakenReferIs(r);
      TextFound(Refer(r), t, rest);
    } else if t[0] != 0x3C {
      TextReacts(m.regs, t[0]);
      n, rest := Character(Plain(t[0])), t[1..];
      TextFound(Plain(t[0]), t, rest);
    } else {
      var m1 := InState(m, Le(2));
      AngleOpens(m);
      AngleAt(m, Misc(2), open);
      AtFields(m1, Le(2), open);
      LeftAfter(m, [0x3C], m1, [], t[1..]);
      MustGo(m1, t[1..]);
      LessReacts(m1.regs, t[1..][0]);
      TwoAndRest(t);
      if t[1] == 0x21 {
        n, rest := FindMarked(m, t[2..], open);
      } else if t[1] == 0x3F {
        var decl, pi;
        decl, pi, rest := FindInstruction(m, t[2..], open);
        n := Process(pi);
        ProcessFound(pi, t, rest);
      } else {
        var cut;
        n, cut, rest := FindElement(m1, Le(2), t[1..], open);
        NotCut(n, cut, t[1..], rest, open);
        InnerFound(n, t[1..], rest, open);
      }
    }
    IsFound(n, t, rest);
  }

  lemma NotCut(n: Node, cut: bool, t: seq<Byte>, rest: seq<Byte>, outer: seq<Name>)
    requires FoundElement(n, cut, t, rest, outer) && outer != []
    ensures !cut
  {
    hide TakenNode, WriteRoot;
  }

  // ---------------------------------------------------------------- the document type

  lemma LiteralOpens(m: Machine, q: Quote) returns (m': Machine)
    requires (m.regs.state == Dt(0) || m.regs.state == Dt(4)) && m.ignore == 0
    ensures Trip(m, [QuoteMark(q)], m', []) && m'.regs.state == Dt(1) && m'.regs.quote == QuoteMark(q) && m'.ignore == 0
  {
    m' := m.(regs := m.regs.(state := Dt(1), quote := QuoteMark(q), next := m.regs.state));
    DoctypeByte(m, QuoteMark(q), m'.regs);
    hide *;
  }

  lemma LiteralIs(q: Quote, s: seq<Byte>)
    requires Cleans(s) && QuoteMark(q) !in s
    ensures TakenLiteral(q, s)
  {
  }

  /** A literal from its opening quote on. */
  lemma FindLiteral(m: Machine, q: Quote, t: seq<Byte>) returns (s: seq<Byte>, rest: seq<Byte>)
    requires (m.regs.state == Dt(0) || m.regs.state == Dt(4)) && Left(m, [QuoteMark(q)] + t)
    ensures [QuoteMark(q)] + t == InQuotes(q, s) + rest && TakenLiteral(q, s)
  {
    hide *;
    RoomOf(m, [QuoteMark(q)] + t, 0);
    var m1 := LiteralOpens(m, q);
    LeftAfter(m, [QuoteMark(q)], m1, [], t);
    RoomOf(m1, t, 0);
    var found, i := FindByte(t, QuoteMark(q));
    if !found {
      LiteralIs(q, t);
      LiteralBody(m1, q, t);
      NoSuffix(t);
      LeftAfter(m1, t, m1, [], []);
      NotAtEnd(m1);
      assert false;
    } else {
      s, rest := t[..i], t[i + 1..];
      assert t == s + ([QuoteMark(q)] + rest);
      CleansParts(s, [QuoteMark(q)] + rest);
      LiteralIs(q, s);
      QuotedJoins(q, s, rest);
    }
  }

  lemma OtherIs(c: Byte)
    requires Clean(c) && c != 0x3E && c != 0x22 && c != 0x27
    ensures TakenOther(c)
  {
  }

  lemma MarkupLonger(p: MarkupPart, parts: seq<MarkupPart>)
    requires TakenMarkupPart(p) && TakenMarkup(parts)
    ensures TakenMarkup([p] + parts)
    ensures p.MarkupOther? ==> WriteMarkup([p] + parts) == [p.b] + WriteMarkup(parts)
    ensures p.MarkupLiteral? ==> WriteMarkup([p] + parts) == InQuotes(p.quote, p.bytes) + WriteMarkup(parts)
  {
    hide TakenMarkupPart, InQuotes;
    assert ([p] + parts)[1..] == parts;
  }

  lemma MarkupPartIs(p: MarkupPart)
    requires p.MarkupOther? ==> TakenOther(p.b)
    requires p.MarkupLiteral? ==> TakenLiteral(p.quote, p.bytes)
    ensures TakenMarkupPart(p)
  {
    hide TakenOther, TakenLiteral;
  }

  lemma NoMarkup()
    ensures TakenMarkup([]) && WriteMarkup([]) == []
  {
  }

  lemma {:induction false} FindMarkup(m: Machine, t: seq<Byte>) returns (parts: seq<MarkupPart>, rest: seq<Byte>)
    requires m.regs.state == Dt(4) && Left(m, t)
    ensures t == WriteMarkup(parts) + ([0x3E] + rest) && TakenMarkup(parts)
    decreases |t|
  {
    hide *;
    RoomOf(m, t, 0);
    MustGo(m, t);
    FirstAndRest(t);
    var c := t[0];
    if c == 0x3E {
      parts, rest := [], t[1..];
      NoMarkup();
      NoPrefix(t);
    } else if c == 0x27 || c == 0x22 {
      var q := QuoteOf(c);
      QuoteOfIs(c);
      var s, v := FindLiteral(m, q, t[1..]);
      var m1 := LiteralIsRead(m, q, s);
      FieldsKept(m, m1);
      LeftAfter(m, InQuotes(q, s), m1, [], v);
      QuotedLength(q, s);
      parts, rest := FindMarkup(m1, v);
      MarkupPartIs(MarkupLiteral(q, s));
      MarkupLonger(MarkupLiteral(q, s), parts);
      Assoc(InQuotes(q, s), WriteMarkup(parts), [0x3E] + rest);
      parts := [MarkupLiteral(q, s)] + parts;
    } else {
      OtherIs(c);
      OtherByte(m, c);
      LeftAfter(m, [c], m, [], t[1..]);
      parts, rest := FindMarkup(m, t[1..]);
      MarkupPartIs(MarkupOther(c));
      MarkupLonger(MarkupOther(c), parts);
      Assoc([c], WriteMarkup(parts), [0x3E] + rest);
      parts := [MarkupOther(c)] + parts;
    }
  }

  lemma QuotedLength(q: Quote, s: seq<Byte>)
    ensures |InQuotes(q, s)| == |s| + 2
  {
  }

  ghost predicate FoundPart(d: DoctypePart, t: seq<Byte>, rest: seq<Byte>) {
    TakenDoctypePart(d) && t == WriteDoctypePart(d) + rest && WriteDoctypePart(d) != []
  }

  lemma PartFits(d: DoctypePart)
    ensures d.Other? && TakenOther(d.b) && d.b != 0x3C ==> TakenDoctypePart(d) && WriteDoctypePart(d) == [d.b]
    ensures d.Literal? && TakenLiteral(d.quote, d.bytes) ==> TakenDoctypePart(d) && WriteDoctypePart(d) == InQuotes(d.quote, d.bytes)
    ensures d.Markup? && Clean(d.first) && d.first != 0x2D && TakenMarkup(d.parts) ==>
      TakenDoctypePart(d) && WriteDoctypePart(d) == [0x3C, 0x21, d.first] + (WriteMarkup(d.parts) + [0x3E])
    ensures d.DoctypeRemark? && TakenComment(d.bytes) ==> TakenDoctypePart(d) && WriteDoctypePart(d) == WriteComment(d.bytes)
    ensures d.DoctypeOrder? && TakenInstruction(d.pi) ==> TakenDoctypePart(d) && WriteDoctypePart(d) == WriteInstruction(d.pi)
    ensures |WriteDoctypePart(d)| > 0
  {
    hide TakenOther, TakenLiteral, TakenMarkup, TakenComment, TakenInstruction, WriteMarkup;
  }

  lemma IsPart(d: DoctypePart, t: seq<Byte>, rest: seq<Byte>)
    requires TakenDoctypePart(d) && t == WriteDoctypePart(d) + rest
    ensures FoundPart(d, t, rest) && |rest| < |t|
  {
    PartFits(d);
    hide TakenDoctypePart, WriteDoctypePart;
  }

  lemma PartIs(d: DoctypePart, t: seq<Byte>, rest: seq<Byte>)
    requires FoundPart(d, t, rest)
    ensures TakenDoctypePart(d) && t == WriteDoctypePart(d) + rest && |rest| < |t|
  {
    hide TakenDoctypePart, WriteDoctypePart;
  }

  lemma Dt2Reacts(r: Regs, c: Byte)
    requires r.state == Dt(2) && OnByte(r, c).React?
    ensures c == 0x3F || c == 0x21
  {
    DoctypeRow(r, c);
    hide OnByte;
  }

  lemma Marked(m: Machine)
    requires m.regs.state == Dt(0) && m.ignore == 0
    ensures Trip(m, [0x3C], InState(m, Dt(2)), []) && Trip(m, [0x3C, 0x21], InState(m, Dt(3)), [])
  {
    DoctypeByte(m, 0x3C, InState(m, Dt(2)).regs);
    DoctypeByte(InState(m, Dt(2)), 0x21, InState(m, Dt(3)).regs);
    hide *;
    QuietFirst(m, [0x3C], InState(m, Dt(2)), [0x21], InState(m, Dt(3)), []);
    assert [0x3C] + [0x21] == [0x3C, 0x21];
  }

  /** A markup declaration behind "<!". */
  lemma FindMarkupPart(m: Machine, t: seq<Byte>) returns (d: DoctypePart, rest: seq<Byte>)
    requires At(m, Dt(0), []) && Left(m, [0x3C, 0x21] + t)
    ensures FoundPart(d, [0x3C, 0x21] + t, rest)
  {
    hide *;
    AtFields(m, Dt(0), []);
    Marked(m);
    var m1 := InState(m, Dt(3));
    StateIs(m, Dt(3));
    LeftAfter(m, [0x3C, 0x21], m1, [], t);
    MustGo(m1, t);
    FirstAndRest(t);
    var whole, start := [0x3C, 0x21] + t, [0x3C, 0x21, t[0]];
    assert whole == start + t[1..];
    if t[0] == 0x2D {
      DoctypeContext();
      var m2 := DashOpens(m);
      var s;
      s, rest := FindRemark(m, t[1..], [], m2);
      d := DoctypeRemark(s);
      PartFits(d);
    } else {
      MarkupOpens(m, t[0]);
      var m2 := InState(m, Dt(4));
      StateIs(m, Dt(4));
      LeftAfter(m, start, m2, [], t[1..]);
      var parts;
      parts, rest := FindMarkup(m2, t[1..]);
      d := Markup(t[0], parts);
      PartFits(d);
      Assoc(WriteMarkup(parts), [0x3E], rest);
      Assoc(start, WriteMarkup(parts) + [0x3E], rest);
    }
    IsPart(d, whole, rest);
  }

  lemma FindPart(m: Machine, t: seq<Byte>) returns (d: DoctypePart, rest: seq<Byte>)
    requires At(m, Dt(0), []) && Left(m, t) && t != [] && t[0] != 0x3E
    ensures FoundPart(d, t, rest)
  {
    hide *;
    AtFields(m, Dt(0), []);
    MustGo(m, t);
    FirstAndRest(t);
    var c := t[0];
    if c == 0x27 || c == 0x22 {
      var q := QuoteOf(c);
      QuoteOfIs(c);
      var s;
      s, rest := FindLiteral(m, q, t[1..]);
      d := Literal(q, s);
      PartFits(d);
      IsPart(d, t, rest);
    } else if c != 0x3C {
      OtherIs(c);
      d, rest := Other(c), t[1..];
      PartFits(d);
      IsPart(d, t, rest);
    } else {
      Marked(m);
      var m1 := InState(m, Dt(2));
      StateIs(m, Dt(2));
      LeftAfter(m, [0x3C], m1, [], t[1..]);
      MustGo(m1, t[1..]);
      Dt2Reacts(m1.regs, t[1..][0]);
      TwoAndRest(t);
      if t[1] == 0x3F {
        DoctypeContext();
        var decl, pi;
        decl, pi, rest := FindInstruction(m, t[2..], []);
        d := DoctypeOrder(pi);
        PartFits(d);
        IsPart(d, t, rest);
      } else {
        d, rest := FindMarkupPart(m, t[2..]);
      }
    }
  }

  lemma PartsLonger(d: DoctypePart, parts: seq<DoctypePart>)
    requires TakenDoctypePart(d) && TakenDoctype(parts)
    ensures TakenDoctype([d] + parts) && WriteDoctypeParts([d] + parts) == WriteDoctypePart(d) + WriteDoctypeParts(parts)
  {
    hide TakenDoctypePart, WriteDoctypePart;
    assert ([d] + parts)[1..] == parts;
  }

  lemma EmptyDoctype()
    ensures TakenDoctype([]) && WriteDoctypeParts([]) == []
  {
  }

  lemma {:induction false} FindParts(m: Machine, t: seq<Byte>) returns (parts: seq<DoctypePart>, rest: seq<Byte>)
    requires At(m, Dt(0), []) && Left(m, t)
    ensures t == WriteDoctypeParts(parts) + ([0x3E] + rest) && TakenDoctype(parts)
    decreases |t|
  {
    hide *;
    AtFields(m, Dt(0), []);
    MustGo(m, t);
    FirstAndRest(t);
    EmptyDoctype();
    if t[0] == 0x3E {
      parts, rest := [], t[1..];
      NoPrefix(t);
    } else {
      var d, v := FindPart(m, t);
      PartIs(d, t, v);
      RoomOf(m, t, |WriteDoctypePart(d)|);
      var m1 := PartIsRead(m, d);
      AtFields(m1, Dt(0), []);
      LeftAfter(m, WriteDoctypePart(d), m1, PartReports(d), v);
      parts, rest := FindParts(m1, v);
      PartsLonger(d, parts);
      Assoc(WriteDoctypePart(d), WriteDoctypeParts(parts), [0x3E] + rest);
      parts := [d] + parts;
    }
  }

  /** A document type behind "<!D". */
  lemma FindDoctype(m: Machine, m2: Machine, t: seq<Byte>) returns (parts: seq<DoctypePart>, rest: seq<Byte>)
    requires Early(m.regs.state) && At(m, m.regs.state, []) && m2.regs.state == Lee(1) && m2.ignore == 0
    requires Trip(m, [0x3C, 0x21], m2, []) && Left(m, [0x3C, 0x21, 0x44] + t)
    ensures [0x3C, 0x21, 0x44] + t == WriteDoctype(parts) + rest && TakenDoctype(parts)
  {
    hide *;
    AtFields(m, m.regs.state, []);
    var start: seq<Byte> := [0x3C, 0x21, 0x44, 0x4F, 0x43, 0x54, 0x59, 0x50, 0x45];
    DoctypeLetter(m2);
    var m3 := Expecting(m2, Dt(0), OCTYPE);
    QuietFirst(m, [0x3C, 0x21], m2, [0x44], m3, []);
    assert [0x3C, 0x21] + [0x44] == [0x3C, 0x21, 0x44];
    AwaitsWord(m2, Dt(0), OCTYPE);
    LeftAfter(m, [0x3C, 0x21, 0x44], m3, [], t);
    WordIsPlain();
    var v := FindWord(m3, t);
    var m4 := DoctypeOpens(m);
    StillAt(m, m4, Dt(0), []);
    AtFields(m4, Dt(0), []);
    assert [0x3C, 0x21, 0x44] + OCTYPE == start by { WordIsPlain(); }
    Assoc([0x3C, 0x21, 0x44], OCTYPE, v);
    LeftAfter(m, start, m4, [], v);
    parts, rest := FindParts(m4, v);
    DoctypeText(parts);
    Assoc(WriteDoctypeParts(parts), [0x3E], rest);
    Assoc(start, WriteDoctypeParts(parts) + [0x3E], rest);
  }

  lemma WordIsPlain()
    ensures OCTYPE == [0x4F, 0x43, 0x54, 0x59, 0x50, 0x45] && OCTYPE != [] && NUL !in OCTYPE && 13 !in OCTYPE
  {
  }

  // ---------------------------------------------------------------- outside of the root

  /** What begins a declaration. */
  predicate Declares(t: seq<Byte>) {
    |t| > 5 && t[..5] == [0x3C, 0x3F, 0x78, 0x6D, 0x6C] && IsSP(t[5])
  }

  ghost predicate FoundMisc(x: Misc, t: seq<Byte>, rest: seq<Byte>) {
    TakenMisc(x) && t == WriteMisc(x) + rest && WriteMisc(x) != []
  }

  lemma MiscFits(x: Misc)
    ensures x.Space? && Blanks([x.b]) ==> TakenMisc(x)
    ensures x.Remark? && TakenComment(x.bytes) ==> TakenMisc(x)
    ensures x.Order? && TakenInstruction(x.pi) ==> TakenMisc(x)
    ensures x.Doctype? && TakenDoctype(x.parts) ==> TakenMisc(x)
    ensures |WriteMisc(x)| > 0
  {
    hide Blanks, TakenComment, TakenInstruction, TakenDoctype, WriteDoctypeParts;
  }

  lemma IsMisc(x: Misc, t: seq<Byte>, rest: seq<Byte>)
    requires TakenMisc(x) && t == WriteMisc(x) + rest
    ensures FoundMisc(x, t, rest)
  {
    MiscFits(x);
    hide TakenMisc, WriteMisc;
  }

  lemma MiscIs(x: Misc, t: seq<Byte>, rest: seq<Byte>)
    requires FoundMisc(x, t, rest)
    ensures TakenMisc(x) && t == WriteMisc(x) + rest && |rest| < |t|
  {
    hide TakenMisc, WriteMisc;
  }

  lemma MiscReacts(r: Regs, c: Byte)
    requires (Early(r.state) || r.state == Misc(3)) && OnByte(r, c).React?
    ensures IsSP(c) || c == 0x3C || (r.state == Init && c == 0xEF)
  {
    MiscRow(r, c);
    hide OnByte, IsSP;
  }

  lemma ExclaimedOf(s: St)
    requires Early(s) || s == Misc(3)
    ensures Exclaimed(s) == if s == Misc(3) then St.Comment(0) else Lee(1)
    ensures Angle(s) == if s == Misc(3) then Le(3) else if s == Misc(1) then Le(1) else Le(0)
    ensures Context(s)
  {
  }

  /** What begins with "<!" outside of the root. */
  lemma FindOutside(m: Machine, t: seq<Byte>) returns (x: Misc, rest: seq<Byte>)
    requires (Early(m.regs.state) || m.regs.state == Misc(3)) && At(m, m.regs.state, []) && Left(m, [0x3C, 0x21] + t)
    ensures FoundMisc(x, [0x3C, 0x21] + t, rest) && (m.regs.state == Misc(3) ==> !x.Doctype?) && !x.Space?
  {
    hide *;
    var s := m.regs.state;
    AtFields(m, s, []);
    ExclaimedOf(s);
    EarlyStates();
    var m1 := InState(m, Angle(s));
    var m2 := m1.(regs := m1.regs.(state := Exclaimed(s), next := if s == Misc(3) then Misc(3) else m1.regs.next));
    StateIs(m, Angle(s));
    AngleOpens(m);
    Exclaims(m1, s);
    QuietFirst(m, [0x3C], m1, [0x21], m2, []);
    assert [0x3C] + [0x21] == [0x3C, 0x21];
    LeftAfter(m, [0x3C, 0x21], m2, [], t);
    MustGo(m2, t);
    if s == Misc(3) { CommentReacts(m2.regs, t[0]); } else { MarkReacts(m2.regs, t[0]); }
    FirstAndRest(t);
    var whole := [0x3C, 0x21] + t;
    assert whole == [0x3C, 0x21, t[0]] + t[1..];
    if t[0] == 0x2D {
      var m3 := DashOpens(m);
      var bytes;
      bytes, rest := FindRemark(m, t[1..], [], m3);
      x := Remark(bytes);
    } else {
      var parts;
      parts, rest := FindDoctype(m, m2, t[1..]);
      x := Doctype(parts);
    }
    MiscFits(x);
    MiscText(x);
    IsMisc(x, whole, rest);
  }

  /** The next thing outside of the root, or the root. */
  lemma FindMisc(m: Machine, t: seq<Byte>) returns (root: bool, x: Misc, rest: seq<Byte>)
    requires (Early(m.regs.state) || m.regs.state == Misc(3)) && At(m, m.regs.state, []) && Left(m, t) && t != []
    requires m.regs.state == Init ==> t[0] != 0xEF
    requires m.regs.state == Init || m.regs.state == Misc(0) ==> !Declares(t)
    ensures root ==> Early(m.regs.state) && |t| > 1 && t[0] == 0x3C && NameStart(t[1])
    ensures !root ==> FoundMisc(x, t, rest) && (m.regs.state == Misc(3) ==> !x.Doctype?) && (x.Space? ==> IsSP(t[0]))
  {
    hide *;
    var s := m.regs.state;
    AtFields(m, s, []);
    MustGo(m, t);
    MiscReacts(m.regs, t[0]);
    FirstAndRest(t);
    ExclaimedOf(s);
    EarlyStates();
    EarlyCases(s);
    root, x, rest := false, Space(0), [];
    if IsSP(t[0]) {
      x, rest := Space(t[0]), t[1..];
      BlankIs(t[0]);
      MiscFits(x);
      MiscText(x);
      IsMisc(x, t, rest);
    } else {
      var m1 := InState(m, Angle(s));
      AngleOpens(m);
      StateIs(m, Angle(s));
      LeftAfter(m, [0x3C], m1, [], t[1..]);
      MustGo(m1, t[1..]);
      LessReacts(m1.regs, t[1..][0]);
      TwoAndRest(t);
      if t[1] == 0x21 {
        x, rest := FindOutside(m, t[2..]);
      } else if t[1] == 0x3F {
        var decl, pi;
        decl, pi, rest := FindInstruction(m, t[2..], []);
        if decl {
          DeclarationFound(t);
          assert false;
        } else {
          x := Order(pi);
          MiscFits(x);
          MiscText(x);
          IsMisc(x, t, rest);
        }
      } else {
        root := true;
      }
    }
  }

  lemma DeclarationFound(t: seq<Byte>)
    requires |t| > 5 && t[0] == 0x3C && t[1] == 0x3F && t[2..][..3] == [0x78, 0x6D, 0x6C] && IsSP(t[2..][3])
    ensures Declares(t)
  {
    assert t[..5] == [t[0], t[1]] + t[2..][..3];
  }

  lemma MiscsLonger(x: Misc, xs: seq<Misc>)
    requires TakenMisc(x) && TakenMiscs(xs)
    ensures TakenMiscs([x] + xs) && WriteMiscs([x] + xs) == WriteMisc(x) + WriteMiscs(xs)
    ensures !x.Doctype? && NoDoctype(xs) ==> NoDoctype([x] + xs)
  {
    hide TakenMisc, WriteMisc;
    assert ([x] + xs)[1..] == xs;
  }

  lemma EmptyMiscs()
    ensures TakenMiscs([]) && WriteMiscs([]) == [] && NoDoctype([])
  {
  }

  /** The prolog, up to the root. */
  lemma {:induction false} FindProlog(m: Machine, t: seq<Byte>) returns (xs: seq<Misc>, rest: seq<Byte>)
    requires Early(m.regs.state) && At(m, m.regs.state, []) && Left(m, t)
    requires m.regs.state != Misc(1) ==> !Declares(t) && (t != [] ==> !IsSP(t[0]) && t[0] != 0xEF)
    ensures t == WriteMiscs(xs) + rest && TakenMiscs(xs) && |rest| > 1 && rest[0] == 0x3C && NameStart(rest[1])
    decreases |t|
  {
    hide *;
    AtFields(m, m.regs.state, []);
    EarlyIsNotLate(m.regs.state);
    EarlyCases(m.regs.state);
    MustGo(m, t);
    EmptyMiscs();
    var root, x, v := FindMisc(m, t);
    if root {
      xs, rest := [], t;
      NoPrefix(t);
    } else {
      MiscIs(x, t, v);
      RoomOf(m, t, |WriteMisc(x)|);
      var m1 := MiscIsRead(m, x);
      AtFields(m1, m1.regs.state, []);
      LeftAfter(m, WriteMisc(x), m1, MiscReports(x), v);
      xs, rest := FindProlog(m1, v);
      MiscsLonger(x, xs);
      Assoc(WriteMisc(x), WriteMiscs(xs), rest);
      xs := [x] + xs;
    }
  }

  /** What stands behind the root. */
  lemma {:induction false} FindAfter(m: Machine, t: seq<Byte>) returns (xs: seq<Misc>)
    requires At(m, Misc(3), []) && Left(m, t)
    ensures t == WriteMiscs(xs) && TakenMiscs(xs) && NoDoctype(xs)
    decreases |t|
  {
    hide *;
    AtFields(m, Misc(3), []);
    EmptyMiscs();
    EarlyStates();
    if t == [] {
      xs := [];
    } else {
      var root, x, v := FindMisc(m, t);
      MiscIs(x, t, v);
      RoomOf(m, t, |WriteMisc(x)|);
      var m1 := MiscIsRead(m, x);
      LeftAfter(m, WriteMisc(x), m1, MiscReports(x), v) by { AtFields(m1, Misc(3), []); }
      xs := FindAfter(m1, v);
      MiscsLonger(x, xs);
      xs := [x] + xs;
    }
  }

  // ---------------------------------------------------------------- whole documents

  /** The byte order mark. */
  lemma FindMark(m: Machine, t: seq<Byte>) returns (mark: bool, m': Machine, rest: seq<Byte>)
    requires At(m, Init, []) && Left(m, t)
    ensures t == (if mark then [0xEF, 0xBB, 0xBF] else []) + rest && Left(m', rest) && At(m', m'.regs.state, [])
    ensures m'.regs.state == (if mark then Misc(0) else Init) && (!mark ==> rest != [] && rest[0] != 0xEF)
    ensures Trip(m, if mark then [0xEF, 0xBB, 0xBF] else [], m', [])
  {
    hide *;
    AtFields(m, Init, []);
    MustGo(m, t);
    if t[0] == 0xEF {
      mark := true;
      FirstOfMark(m);
      FirstAndRest(t);
      var m1 := Expecting(m, Misc(0), [0xBB, 0xBF]);
      AwaitsWord(m, Misc(0), [0xBB, 0xBF]);
      LeftAfter(m, [0xEF], m1, [], t[1..]);
      MarkIsPlain();
      rest := FindWord(m1, t[1..]);
      m' := MarkIsRead(m);
      AtFields(m', Misc(0), []);
      assert [0xEF] + ([0xBB, 0xBF] + rest) == [0xEF, 0xBB, 0xBF] + rest;
      LeftAfter(m, [0xEF, 0xBB, 0xBF], m', [], rest);
    } else {
      mark, m', rest := false, m, t;
      Nowhere(m);
      NoPrefix(t);
    }
  }

  lemma DeclaresParts(t: seq<Byte>)
    requires Declares(t)
    ensures |t| > 5 && IsSP(t[5]) && t == [0x3C, 0x3F, 0x78, 0x6D, 0x6C] + ([t[5]] + t[6..])
  {
    assert t == t[..5] + ([t[5]] + t[6..]);
  }

  /** A declaration, if there is one. */
  lemma FindDeclared(m: Machine, t: seq<Byte>) returns (declaration: Option<Declaration>, m': Machine, rest: seq<Byte>)
    requires (m.regs.state == Init || m.regs.state == Misc(0)) && At(m, m.regs.state, []) && Left(m, t)
    requires t != [] && !IsSP(t[0]) && t[0] != 0xEF
    ensures t == (if declaration.Some? then WriteDeclaration(declaration.value) else []) + rest
    ensures declaration.Some? ==> GoodDeclaration(declaration.value)
    ensures Early(m'.regs.state) && At(m', m'.regs.state, []) && Left(m', rest)
    ensures m'.regs.state != Misc(1) ==> !Declares(rest) && (rest != [] ==> !IsSP(rest[0]) && rest[0] != 0xEF)
  {
    hide *;
    AtFields(m, m.regs.state, []);
    EarlyStates();
    if Declares(t) {
      DeclaresParts(t);
      var d;
      d, rest := FindDeclaration(m, t[5], t[6..]);
      declaration := Some(d);
      RoomOf(m, t, |WriteDeclaration(d)|);
      m' := DeclarationIsRead(m, d);
      AtFields(m', Misc(1), []);
      LeftAfter(m, WriteDeclaration(d), m', [], rest);
    } else {
      declaration, m', rest := None, m, t;
      NoPrefix(t);
    }
  }

  /** The root and what stands behind it. */
  lemma FindRoot(m: Machine, t: seq<Byte>) returns (n: Node, cut: bool, after: seq<Misc>)
    requires Early(m.regs.state) && At(m, m.regs.state, []) && Left(m, t) && |t| > 1 && t[0] == 0x3C && NameStart(t[1])
    ensures t == WriteRoot(n, cut) + WriteMiscs(after) && TakenNode(n) && RootTaken(n, cut) && TakenMiscs(after) && NoDoctype(after)
  {
    hide *;
    var s := m.regs.state;
    EarlyIs(s);
    AtFields(m, s, []);
    var m1 := InState(m, Angle(s));
    AngleOpens(m);
    AngleAt(m, s, []);
    StateIs(m, Angle(s));
    FirstAndRest(t);
    LeftAfter(m, [0x3C], m1, [], t[1..]);
    var rest;
    n, cut, rest := FindElement(m1, Angle(s), t[1..], []);
    FoundRoot(n, cut, t[1..], rest);
    RoomOf(m, t, |WriteRoot(n, cut)|);
    var m2 := RootIsRead(m, n, cut);
    AtFields(m2, Misc(3), []);
    LeftAfter(m, WriteRoot(n, cut), m2, NodeReports(n), rest);
    after := FindAfter(m2, rest);
  }

  lemma FoundRoot(n: Node, cut: bool, t: seq<Byte>, rest: seq<Byte>)
    requires FoundElement(n, cut, t, rest, [])
    ensures TakenNode(n) && WriteRoot(n, cut) + rest == [0x3C] + t && RootTaken(n, cut)
  {
    hide TakenNode, WriteRoot, RootTaken;
  }

  lemma DocumentIs(d: Document)
    requires Blanks(d.lead) && (d.declaration.Some? ==> GoodDeclaration(d.declaration.value))
    requires TakenMiscs(d.prolog) && TakenNode(d.root) && RootTaken(d.root, d.cut) && TakenMiscs(d.after) && NoDoctype(d.after)
    ensures TakenDocument(d)
  {
    hide Blanks, GoodDeclaration, TakenMiscs, TakenNode, NoDoctype;
  }

  lemma FindDocument(m: Machine, t: seq<Byte>) returns (d: Document)
    requires At(m, Init, []) && Left(m, t)
    ensures TakenDocument(d) && t == Write(d)
  {
    hide *;
    AtFields(m, Init, []);
    var mark, m1, v := FindMark(m, t);
    var lead, u := FindBlanks(v);
    AtFields(m1, m1.regs.state, []);
    var m2 := LeadIsRead(m1, lead);
    AtFields(m2, m2.regs.state, []);
    LeftAfter(m1, lead, m2, [], u);
    MustGo(m2, u);
    EarlyStates();
    MiscReacts(m2.regs, u[0]);
    NotAMark(v, lead, u);
    var declaration, m3, x := FindDeclared(m2, u);
    AtFields(m3, m3.regs.state, []);
    var prolog, y := FindProlog(m3, x);
    RoomOf(m3, x, |WriteMiscs(prolog)|);
    EarlyIsNotLate(m3.regs.state);
    var m4 := MiscsAreRead(m3, prolog);
    AtFields(m4, m4.regs.state, []);
    LeftAfter(m3, WriteMiscs(prolog), m4, MiscsReports(prolog), y);
    var n, cut, after := FindRoot(m4, y);
    d := Document(mark, lead, declaration, prolog, n, cut, after);
    DocumentIs(d);
    HeadText(d);
    WrittenAs(d);
  }

  /** A byte order mark has no second one behind it. */
  lemma NotAMark(v: seq<Byte>, lead: seq<Byte>, u: seq<Byte>)
    requires v == lead + u && u != []
    ensures lead == [] ==> u[0] == v[0]
  {
  }

  // ---------------------------------------------------------------- room

  lemma PerformRoom(m: Machine, a: Action, c: Byte, room: nat)
    requires room >= m.room && !Negative(Perform(m, a, c).ret)
    ensures Perform(m.(room := room), a, c) == Outcome(Perform(m, a, c).m.(room := room), Perform(m, a, c).ret)
  {
    hide Accepted, CodePoint, SaysXml, Grown;
    SameDepth(m, m.(room := room));
    hide Depth;
  }

  lemma StepRoom(m: Machine, b: Byte, room: nat)
    requires room >= m.room && !Negative(Step(m, b).ret)
    ensures Step(m.(room := room), b) == Outcome(Step(m, b).m.(room := room), Step(m, b).ret)
    ensures Told(m.(room := room), b) == Told(m, b)
  {
    hide OnByte, Perform, SetUtf8, CodePoint, Data;
    if b != NUL && m.ignore != b {
      var c: Byte := if b == 13 then 10 else b;
      if OnByte(m.regs, c).React? {
        var r := OnByte(m.regs, c);
        PerformRoom(m.(ignore := if b == 13 then 10 else 0, regs := r.regs), r.action, c, room);
      }
    }
  }

  /** More room changes nothing for a text that is taken. */
  lemma {:induction false} MoreRoom(m: Machine, t: seq<Byte>, room: nat)
    requires Go(m, t).ok && room >= m.room
    ensures Go(m.(room := room), t) == Way(true, Go(m, t).m.(room := room), Go(m, t).told)
    decreases |t|
  {
    hide Step, Told;
    if t != [] {
      StepRoom(m, t[0], room);
      MoreRoomAfter(m, t[0]);
      MoreRoom(Step(m, t[0]).m, t[1..], room);
    }
  }

  lemma MoreRoomAfter(m: Machine, b: Byte)
    ensures Step(m, b).m.room == m.room
  {
    StepDepth(m, b);
    hide *;
  }

  // ---------------------------------------------------------------- soundness

  lemma {:induction false} NoReturns(text: seq<Byte>, pending: bool)
    ensures 13 !in LineEnds(text, pending)
    decreases |text|
  {
    if text != [] {
      NoReturns(text[1..], true);
      NoReturns(text[1..], false);
    }
  }

  lemma {:induction false} TakenIsClean(m: Machine, t: seq<Byte>)
    requires Go(m, t).ok && 13 !in t
    ensures Cleans(t)
    decreases |t|
  {
    hide Told, OnByte, Perform;
    if t != [] {
      assert t == [t[0]] + t[1..];
      TakenIsClean(Step(m, t[0]).m, t[1..]);
      hide Go, Step;
    }
  }

  lemma FedIsGone(room: nat, text: seq<Byte>)
    requires !Negative(Feed(room, text).ret)
    ensures var w := Go(Start(room), text); w.ok && Feed(room, text).m == w.m && Heard(room, text) == w.told
  {
    hide *;
    FeedOfNothing(room);
    NoPrefix(text);
    var w := Go(Start(room), text);
    if !w.ok {
      FeedsStop(room, [], text);
      assert false;
    }
    FeedsOn(room, [], text, w.m, w.told) by { WayIs(Start(room), text); }
    NoPrefix(w.told);
  }

  lemma WayIs(m: Machine, t: seq<Byte>)
    ensures Go(m, t).ok ==> Trip(m, t, Go(m, t).m, Go(m, t).told)
  {
    hide Go;
  }

  lemma IsLeft(m: Machine, t: seq<Byte>)
    requires Go(m, t).ok && Go(m, t).m.regs.state == Misc(3) && Cleans(t) && Roomy(m, |t|) && m.ignore == 0
    ensures Left(m, t)
  {
    hide Go, Cleans, Roomy;
  }

  lemma TripIs(m: Machine, t: seq<Byte>, m': Machine, told: seq<Report>)
    requires Trip(m, t, m', told)
    ensures Go(m, t).told == told
  {
    hide Go;
  }

  lemma AtTheEnd(m: Machine)
    ensures Eof(m) == Ok <==> m.regs.state == Misc(3)
  {
  }

  lemma RoomyStart(room: nat, big: nat)
    ensures Start(room).(room := big) == Start(big) && Start(room).room == room && Start(room).ignore == 0
    ensures Start(room).(ignore := 0) == Start(room)
  {
  }

  /** Every text that the parser takes to its end without an error is that of such a document, whatever the room, and
      what has been reported is what the document says. */
  lemma AcceptedAreTaken(room: nat, text: seq<Byte>) returns (d: Document)
    requires !Negative(Feed(room, text).ret) && Eof(Feed(room, text).m) == Ok
    ensures TakenDocument(d) && LineEnds(text, false) == Write(d) && Heard(room, text) == Reports(d)
  {
    hide *;
    var t := LineEnds(text, false);
    var big := room + 2 * |t| + 3;
    var m, m0 := Start(big), Start(room);
    RoomyStart(room, big);
    FedIsGone(room, text);
    AtTheEnd(Feed(room, text).m);
    LineEndsAreNormal(m0, text, false);
    MoreRoom(m0, t, big);
    NoReturns(text, false);
    TakenIsClean(m0, t);
    StartIs(big);
    StartIsRoomy(big, |t|);
    AtFields(m, Init, []);
    IsLeft(m, t);
    d := FindDocument(m, t);
    var m' := DocumentIsRead(m, d);
    TripIs(m, t, m', Reports(d));
  }

  // ---------------------------------------------------------------- too little room

  lemma PerformStack(m: Machine, a: Action, c: Byte, room: nat)
    requires room >= m.room
    ensures var o, o' := Perform(m, a, c), Perform(m.(room := room), a, c);
      o.ret == Estack || o' == Outcome(o.m.(room := room), o.ret)
  {
    hide Accepted, CodePoint, SaysXml, Grown;
    SameDepth(m, m.(room := room));
    hide Depth;
  }

  lemma StepStack(m: Machine, b: Byte, room: nat)
    requires room >= m.room
    ensures var o, o' := Step(m, b), Step(m.(room := room), b);
      o.ret == Estack || o' == Outcome(o.m.(room := room), o.ret)
  {
    hide OnByte, Perform;
    if b != NUL && m.ignore != b {
      var c: Byte := if b == 13 then 10 else b;
      if OnByte(m.regs, c).React? {
        var r := OnByte(m.regs, c);
        PerformStack(m.(ignore := if b == 13 then 10 else 0, regs := r.regs), r.action, c, room);
      }
    }
  }

  /** The room decides about nothing but the error for want of it. */
  lemma {:induction false} OrStack(room: nat, big: nat, bytes: seq<Byte>)
    requires room <= big
    ensures var p, p' := Feed(room, bytes), Feed(big, bytes);
      p.ret == Estack || (p.ret == p'.ret && p'.m == p.m.(room := big) && p.m.room == room)
    decreases |bytes|
  {
    hide Step, Reported;
    if bytes != [] {
      var front, b := bytes[..|bytes| - 1], bytes[|bytes| - 1];
      OrStack(room, big, front);
      var p := Feed(room, front);
      StepStack(if p.m.room == room then p.m else Start(room), b, big);
      MoreRoomAfter(p.m, b);
    }
  }

  /** A document that the parser takes is refused, in whatever room, for want of room only. */
  lemma TakenOrStack(room: nat, text: seq<Byte>, d: Document)
    requires TakenDocument(d) && LineEnds(text, false) == Write(d)
    ensures Feed(room, text).ret == Estack
      || (!Negative(Feed(room, text).ret) && Eof(Feed(room, text).m) == Ok && Heard(room, text) == Reports(d))
  {
    hide *;
    var big := room + 2 * |Write(d)| + 3;
    TakenAreRead(big, text, d);
    OrStack(room, big, text);
    if Feed(room, text).ret != Estack {
      AtTheEnd(Feed(room, text).m);
      AtTheEnd(Feed(big, text).m);
      FedIsGone(room, text);
      FedIsGone(big, text);
      RoomyStart(room, big);
      MoreRoom(Start(room), text, big);
    }
  }
}
