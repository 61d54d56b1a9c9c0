// Elements with their attributes and their content, as the XML automaton takes them.
module XmlElements {
  import opened Bytes
  import opened Sequences
  import opened XmlStates
  import opened XmlAutomaton
  import opened XmlDocuments
  import opened XmlTaken
  import opened XmlSteps
  import opened XmlRuns
  import opened XmlMarkup
  import opened XmlInstructions

  // ---------------------------------------------------------------- the name

  lemma NameBegins(m: Machine, c: Byte)
    requires (m.regs.state == Le(0) || m.regs.state == Le(1) || m.regs.state == Le(2)) && NameStart(c)
    requires m.ignore == 0 && m.extra == [] && Roomy(m, 1)
    ensures Trip(m, [c], InState(m, Elem(0)).(open := m.open + [[c]]), [])
  {
    BeginStep(m, c);
    hide Step, Trip;
    One(m, c);
  }

  lemma BeginStep(m: Machine, c: Byte)
    requires (m.regs.state == Le(0) || m.regs.state == Le(1) || m.regs.state == Le(2)) && NameStart(c)
    requires m.ignore == 0 && m.extra == [] && Roomy(m, 1)
    ensures Step(m, c) == Outcome(InState(m, Elem(0)).(open := m.open + [[c]]), Ok)
  {
    ByteClasses(c);
    LessRow(m.regs, c);
    hide OnByte, Depth, IsNameStart;
    StepIs(m, c, InState(m, Elem(0)).regs, PushElem);
    SameDepth(m, InState(m, Elem(0)));
  }

  lemma OpensName(m: Machine, s: St, name: Name, outer: seq<Name>) returns (m': Machine)
    requires (s == Le(0) || s == Le(1) || s == Le(2)) && At(m, s, outer) && IsNameOf(name) && Roomy(m, |name|)
    ensures Trip(m, name, m', []) && At(m', Elem(0), outer + [name]) && m'.room == m.room
  {
    FirstOfTarget(name);
    LessRoom(m, |name|, 1);
    var m1 := InState(m, Elem(0)).(open := outer + [[name[0]]]);
    NameBegins(m, name[0]);
    RoomLeft(m, [name[0]], m1, [], |name| - 1);
    hide Trip, Depth, NameBytes, NameStart;
    NameIsRead(m1, name[1..]);
    m' := Longer(m1, name[1..]);
    assert Front(m1.open) == outer && Last(m1.open) == [name[0]];
    QuietFirst(m, [name[0]], m1, name[1..], m', []);
  }

  // ---------------------------------------------------------------- inside a start tag

  /** The start of the element is reported by the byte behind its name. */
  function Pending(s: St, name: Name): seq<Report> {
    if s == Elem(0) then [Mark(ElemStart, name)] else []
  }

  lemma SpaceStep(m: Machine, c: Byte, name: Name, outer: seq<Name>)
    requires (m.regs.state == Elem(0) || m.regs.state == Elem(2)) && IsSP(c) && m.ignore == 0 && m.open == outer + [name]
    ensures Trip(m, [c], InState(m, Elem(1)), Pending(m.regs.state, name))
  {
    ElemRow(m.regs, c);
    SpaceIsNoName(c);
    hide OnByte, Trip, IsName;
    var r := InState(m, Elem(1)).regs;
    if m.regs.state == Elem(0) { Gives(m, c, r, ElemStart); } else { Silent(m, c, r); }
  }

  lemma SpaceIsNoName(c: Byte)
    requires IsSP(c)
    ensures !IsName(c) && c != NUL && c != 13
  {
  }

  lemma SpaceInTag(m: Machine, w: seq<Byte>, name: Name, outer: seq<Name>)
    requires (m.regs.state == Elem(0) || m.regs.state == Elem(2)) && m.ignore == 0 && m.open == outer + [name]
    requires w != [] && Blanks(w)
    ensures Trip(m, w, InState(m, Elem(1)), Pending(m.regs.state, name))
  {
    hide *;
    var m1 := InState(m, Elem(1));
    FirstBlank(w);
    SpaceStep(m, w[0], name, outer);
    StateIs(m, Elem(1));
    ElemIdles();
    Waits(m1, w[1..]);
    QuietLast(m, [w[0]], m1, Pending(m.regs.state, name), w[1..], m1);
    assert [w[0]] + w[1..] == w;
  }

  lemma ElemIdles()
    ensures Idles(Elem(1)) && Idles(Etag(2)) && Idles(Attr(1)) && Idles(Attr(2))
  {
  }

  /** The byte that ends the tag or announces an empty element. */
  lemma TagEnds(m: Machine, c: Byte, name: Name, outer: seq<Name>)
    requires m.regs.state == Elem(0) || m.regs.state == Elem(1) || m.regs.state == Elem(2)
    requires (c == 0x2F || c == 0x3E) && m.ignore == 0 && m.open == outer + [name]
    ensures Trip(m, [c], InState(m, if c == 0x2F then Elem(3) else Misc(2)), Pending(m.regs.state, name))
  {
    ElemRow(m.regs, c);
    hide OnByte, Trip;
    var r := InState(m, if c == 0x2F then Elem(3) else Misc(2)).regs;
    if m.regs.state == Elem(0) { Gives(m, c, r, ElemStart); } else { Silent(m, c, r); }
  }

  // ---------------------------------------------------------------- attributes

  lemma AttributeBegins(m: Machine, c: Byte)
    requires m.regs.state == Elem(1) && NameStart(c) && m.ignore == 0 && m.extra == [] && Roomy(m, 1)
    ensures Trip(m, [c], InState(m, Attr(0)).(extra := [[c]]), [])
  {
    AttributeStep(m, c);
    hide Step, Trip;
    One(m, c);
  }

  lemma AttributeStep(m: Machine, c: Byte)
    requires m.regs.state == Elem(1) && NameStart(c) && m.ignore == 0 && m.extra == [] && Roomy(m, 1)
    ensures Step(m, c) == Outcome(InState(m, Attr(0)).(extra := [[c]]), Ok)
  {
    ByteClasses(c);
    StartIsNoSpace(c);
    ElemRow(m.regs, c);
    hide OnByte, Depth, IsNameStart, NameStart, IsSP;
    StepIs(m, c, InState(m, Attr(0)).regs, PushAttr);
    SameDepth(m, InState(m, Attr(0)));
  }

  lemma StartIsNoSpace(c: Byte)
    requires NameStart(c)
    ensures !IsSP(c) && c != 0x2F && c != 0x3E
  {
  }

  lemma AttributeName(m: Machine, name: Name)
    requires m.regs.state == Elem(1) && IsNameOf(name) && m.ignore == 0 && m.extra == [] && Roomy(m, |name|)
    ensures Trip(m, name, InState(m, Attr(0)).(extra := [name]), [])
  {
    FirstOfTarget(name);
    LessRoom(m, |name|, 1);
    var m1 := InState(m, Attr(0)).(extra := [[name[0]]]);
    AttributeBegins(m, name[0]);
    RoomLeft(m, [name[0]], m1, [], |name| - 1);
    hide Trip, Depth, NameBytes, NameStart;
    NameIsRead(m1, name[1..]);
    QuietFirst(m, [name[0]], m1, name[1..], Longer(m1, name[1..]), []);
  }

  lemma AttributeNamed(m: Machine, c: Byte, name: Name)
    requires m.regs.state == Attr(0) && m.extra == [name] && m.ignore == 0 && (IsSP(c) || c == 0x3D)
    ensures Trip(m, [c], InState(m, if c == 0x3D then Attr(2) else Attr(1)), [Mark(AttrStart, name)])
  {
    AttrRow(m.regs, c);
    if IsSP(c) { SpaceIsNoName(c); }
    hide OnByte, Trip;
    Gives(m, c, InState(m, if c == 0x3D then Attr(2) else Attr(1)).regs, AttrStart);
  }

  lemma EqualsSign(m: Machine)
    requires m.regs.state == Attr(1) && m.ignore == 0
    ensures Trip(m, [0x3D], InState(m, Attr(2)), [])
  {
    AttrRow(m.regs, 0x3D);
    hide OnByte, Trip;
    Silent(m, 0x3D, InState(m, Attr(2)).regs);
  }

  lemma AttributeEquals(m: Machine, name: Name, left: seq<Byte>)
    requires m.regs.state == Attr(0) && m.extra == [name] && m.ignore == 0 && Blanks(left)
    ensures Trip(m, left + [0x3D], InState(m, Attr(2)), [Mark(AttrStart, name)])
  {
    hide *;
    if left == [] {
      NoPrefix([0x3D]);
      AttributeNamed(m, 0x3D, name);
    } else {
      var m1 := InState(m, Attr(1));
      FirstBlank(left);
      NotEquals(left[0]);
      AttributeNamed(m, left[0], name);
      StateIs(m, Attr(1));
      ElemIdles();
      Waits(m1, left[1..]);
      EqualsSign(m1);
      StateTwice(m, Attr(1), Attr(2));
      QuietFirst(m1, left[1..], m1, [0x3D], InState(m, Attr(2)), []);
      QuietLast(m, [left[0]], m1, [Mark(AttrStart, name)], left[1..] + [0x3D], InState(m, Attr(2)));
      assert [left[0]] + (left[1..] + [0x3D]) == left + [0x3D];
    }
  }

  lemma NotEquals(c: Byte)
    requires IsSP(c)
    ensures c != 0x3D
  {
  }

  lemma QuoteOpens(m: Machine, q: Quote)
    requires m.regs.state == Attr(2) && m.ignore == 0
    ensures Trip(m, [QuoteMark(q)], m.(regs := m.regs.(state := Attr(3), quote := QuoteMark(q))), [])
  {
    AttrRow(m.regs, QuoteMark(q));
    hide OnByte, Trip;
    Silent(m, QuoteMark(q), m.regs.(state := Attr(3), quote := QuoteMark(q)));
  }

  lemma QuoteCloses(m: Machine, q: Quote)
    requires m.regs.state == Attr(3) && m.regs.quote == QuoteMark(q) && m.ignore == 0
    ensures Trip(m, [QuoteMark(q)], InState(m, Elem(2)).(extra := []), [Mark(AttrEnd, [])])
  {
    CloseStep(m, q);
    hide Step, Trip;
    One(m, QuoteMark(q));
  }

  lemma CloseStep(m: Machine, q: Quote)
    requires m.regs.state == Attr(3) && m.regs.quote == QuoteMark(q) && m.ignore == 0
    ensures Step(m, QuoteMark(q)) == Outcome(InState(m, Elem(2)).(extra := []), AttrEnd)
  {
    AttrRow(m.regs, QuoteMark(q));
    hide OnByte;
    StepIs(m, QuoteMark(q), InState(m, Elem(2)).regs, PopAttr);
  }

  /** What stays while a value is read. */
  lemma KeptFields(m: Machine, m': Machine)
    requires SameBut(m, m')
    ensures m'.regs == m.regs && m'.ignore == m.ignore && m'.open == m.open && m'.extra == m.extra && m'.tag == m.tag
    ensures m'.room == m.room
  {
  }

  lemma ValueInQuotes(m: Machine, q: Quote, value: seq<Piece>) returns (m': Machine)
    requires m.regs.state == Attr(2) && m.ignore == 0 && TakenValues(value, q)
    ensures Trip(m, InQuotes(q, WritePieces(value)), m', Data(AttrVal, ValuesOf(value)) + [Mark(AttrEnd, [])])
    ensures m'.regs.state == Elem(2) && m'.ignore == 0 && m'.open == m.open && m'.extra == [] && m'.tag == m.tag
    ensures m'.room == m.room
  {
    var m1 := m.(regs := m.regs.(state := Attr(3), quote := QuoteMark(q)));
    QuoteOpens(m, q);
    var m2 := ValuesAreRead(m1, value, q);
    KeptFields(m1, m2);
    QuoteCloses(m2, q);
    m' := InState(m2, Elem(2)).(extra := []);
    hide Trip, TakenValues, WritePieces, ValuesOf, Data, SameBut;
    Join(m1, WritePieces(value), m2, Data(AttrVal, ValuesOf(value)), [QuoteMark(q)], m', [Mark(AttrEnd, [])]);
    QuietFirst(m, [QuoteMark(q)], m1, WritePieces(value) + [QuoteMark(q)], m', Data(AttrVal, ValuesOf(value)) + [Mark(AttrEnd, [])]);
  }

  lemma AttributeParts(a: Attribute)
    requires TakenAttribute(a)
    ensures a.space != [] && Blanks(a.space) && IsNameOf(a.name) && Blanks(a.left) && Blanks(a.right)
    ensures TakenValues(a.value, a.quote)
  {
    hide Blanks, IsNameOf, TakenValues;
  }

  lemma AttributeText(a: Attribute)
    ensures AttributeReports(a) == [Mark(AttrStart, a.name)] + (Data(AttrVal, ValuesOf(a.value)) + [Mark(AttrEnd, [])])
    ensures var value := InQuotes(a.quote, WritePieces(a.value));
      && WriteAttribute(a) == a.space + (a.name + (a.left + ([0x3D] + (a.right + value))))
      && |WriteAttribute(a)| >= |a.space| + |a.name|
  {
    hide WritePieces, InQuotes, ValuesOf, Data;
  }

  /** From the equals sign on. */
  lemma AttributeRest(m: Machine, a: Attribute) returns (m': Machine)
    requires m.regs.state == Attr(0) && m.extra == [a.name] && m.ignore == 0 && TakenAttribute(a)
    ensures Trip(m, a.left + ([0x3D] + (a.right + InQuotes(a.quote, WritePieces(a.value)))), m', AttributeReports(a))
    ensures m'.regs.state == Elem(2) && m'.ignore == 0 && m'.open == m.open && m'.extra == [] && m'.tag == m.tag
    ensures m'.room == m.room
  {
    hide *;
    AttributeParts(a);
    AttributeText(a);
    var value, told := InQuotes(a.quote, WritePieces(a.value)), Data(AttrVal, ValuesOf(a.value)) + [Mark(AttrEnd, [])];
    var m1 := InState(m, Attr(2));
    AttributeEquals(m, a.name, a.left);
    StateIs(m, Attr(2));
    ElemIdles();
    Waits(m1, a.right);
    m' := ValueInQuotes(m1, a.quote, a.value);
    QuietFirst(m1, a.right, m1, value, m', told);
    Join(m, a.left + [0x3D], m1, [Mark(AttrStart, a.name)], a.right + value, m', told);
    Assoc(a.left, [0x3D], a.right + value);
  }

  lemma AttributeIsRead(m: Machine, a: Attribute, name: Name, outer: seq<Name>) returns (m': Machine)
    requires (m.regs.state == Elem(0) || m.regs.state == Elem(2)) && At(m, m.regs.state, outer + [name])
    requires TakenAttribute(a) && Roomy(m, |WriteAttribute(a)|)
    ensures Trip(m, WriteAttribute(a), m', Pending(m.regs.state, name) + AttributeReports(a))
    ensures At(m', Elem(2), outer + [name]) && m'.room == m.room
  {
    hide *;
    AtFields(m, m.regs.state, outer + [name]);
    AttributeParts(a);
    AttributeText(a);
    var m1 := InState(m, Elem(1));
    SpaceInTag(m, a.space, name, outer);
    StateIs(m, Elem(1));
    LessRoom(m, |WriteAttribute(a)|, |a.space| + |a.name|);
    RoomLeft(m, a.space, m1, Pending(m.regs.state, name), |a.name|);
    AttributeName(m1, a.name);
    var m2 := InState(m1, Attr(0)).(extra := [a.name]);
    NamedIs(m1, a.name);
    m' := AttributeRest(m2, a);
    var rest := a.left + ([0x3D] + (a.right + InQuotes(a.quote, WritePieces(a.value))));
    QuietFirst(m1, a.name, m2, rest, m', AttributeReports(a));
    Join(m, a.space, m1, Pending(m.regs.state, name), a.name + rest, m', AttributeReports(a));
    ClosedAt(m', Elem(2), outer + [name]);
  }

  lemma NamedIs(m: Machine, name: Name)
    ensures var m2 := InState(m, Attr(0)).(extra := [name]);
      && m2.regs.state == Attr(0) && m2.ignore == m.ignore && m2.open == m.open && m2.tag == m.tag && m2.room == m.room
  {
  }

  lemma {:induction false} AttributesAreRead(m: Machine, attributes: seq<Attribute>, name: Name, outer: seq<Name>) returns (m': Machine)
    requires (m.regs.state == Elem(0) || m.regs.state == Elem(2)) && At(m, m.regs.state, outer + [name])
    requires TakenAttributes(attributes) && Roomy(m, |WriteAttributes(attributes)|)
    ensures Trip(m, WriteAttributes(attributes), m',
      (if attributes == [] then [] else Pending(m.regs.state, name)) + AttributesReports(attributes))
    ensures At(m', if attributes == [] then m.regs.state else Elem(2), outer + [name]) && m'.room == m.room
    decreases |attributes|
  {
    hide *;
    if attributes == [] {
      m' := m;
      NoAttributes(attributes);
      Nowhere(m);
    } else {
      var a, rest := attributes[0], attributes[1..];
      AttributesParts(attributes);
      AttributesText(attributes);
      LessRoom(m, |WriteAttributes(attributes)|, |WriteAttribute(a)|);
      var m1 := AttributeIsRead(m, a, name, outer);
      RoomLeft(m, WriteAttribute(a), m1, Pending(m.regs.state, name) + AttributeReports(a), |WriteAttributes(rest)|);
      AtFields(m1, Elem(2), outer + [name]);
      m' := AttributesAreRead(m1, rest, name, outer);
      NothingPending(name, rest);
      Join(m, WriteAttribute(a), m1, Pending(m.regs.state, name) + AttributeReports(a), WriteAttributes(rest), m', AttributesReports(rest));
      Assoc(Pending(m.regs.state, name), AttributeReports(a), AttributesReports(rest));
    }
  }

  lemma NoAttributes(attributes: seq<Attribute>)
    requires attributes == []
    ensures WriteAttributes(attributes) == [] && [] + AttributesReports(attributes) == []
  {
  }

  lemma NothingPending(name: Name, rest: seq<Attribute>)
    ensures (if rest == [] then [] else Pending(Elem(2), name)) + AttributesReports(rest) == AttributesReports(rest)
  {
    NoPrefix(AttributesReports(rest));
  }

  lemma AttributesParts(attributes: seq<Attribute>)
    requires TakenAttributes(attributes) && attributes != []
    ensures TakenAttribute(attributes[0]) && TakenAttributes(attributes[1..])
  {
    hide TakenAttribute;
  }

  lemma AttributesText(attributes: seq<Attribute>)
    requires attributes != []
    ensures WriteAttributes(attributes) == WriteAttribute(attributes[0]) + WriteAttributes(attributes[1..])
    ensures AttributesReports(attributes) == AttributeReports(attributes[0]) + AttributesReports(attributes[1..])
  {
    hide WriteAttribute, AttributeReports;
  }

  // ---------------------------------------------------------------- tags

  /** Everything in a start tag or an empty element behind the name, up to the byte c. */
  lemma TagIsRead(m: Machine, attributes: seq<Attribute>, space: seq<Byte>, c: Byte, name: Name, outer: seq<Name>) returns (m': Machine)
    requires At(m, Elem(0), outer + [name]) && TakenAttributes(attributes) && Blanks(space)
    requires (c == 0x2F || c == 0x3E) && Roomy(m, |WriteAttributes(attributes)|)
    ensures Trip(m, WriteAttributes(attributes) + (space + [c]), m', [Mark(ElemStart, name)] + AttributesReports(attributes))
    ensures At(m', if c == 0x2F then Elem(3) else Misc(2), outer + [name]) && m'.room == m.room
  {
    hide *;
    AtFields(m, Elem(0), outer + [name]);
    var m1 := AttributesAreRead(m, attributes, name, outer);
    var s := if attributes == [] then Elem(0) else Elem(2);
    AtFields(m1, s, outer + [name]);
    var told1 := (if attributes == [] then [] else Pending(Elem(0), name)) + AttributesReports(attributes);
    m' := InState(m1, if c == 0x2F then Elem(3) else Misc(2));
    StateIs(m1, if c == 0x2F then Elem(3) else Misc(2));
    if space == [] {
      NoPrefix([c]);
      TagEnds(m1, c, name, outer);
    } else {
      var m2 := InState(m1, Elem(1));
      SpaceInTag(m1, space, name, outer);
      StateIs(m1, Elem(1));
      TagEnds(m2, c, name, outer);
      StateTwice(m1, Elem(1), if c == 0x2F then Elem(3) else Misc(2));
      QuietPending(name);
      QuietLast(m1, space, m2, Pending(s, name), [c], m');
    }
    Join(m, WriteAttributes(attributes), m1, told1, space + [c], m', Pending(s, name));
    StartReported(attributes, name);
    ClosedAt(m', if c == 0x2F then Elem(3) else Misc(2), outer + [name]);
  }

  lemma QuietPending(name: Name)
    ensures Pending(Elem(1), name) == []
  {
  }

  lemma StartReported(attributes: seq<Attribute>, name: Name)
    ensures (if attributes == [] then [] else Pending(Elem(0), name)) + AttributesReports(attributes) +
              Pending(if attributes == [] then Elem(0) else Elem(2), name)
            == [Mark(ElemStart, name)] + AttributesReports(attributes)
  {
    if attributes == [] {
      NoSuffix([Mark(ElemStart, name)]);
      NoPrefix([Mark(ElemStart, name)]);
    } else {
      NoSuffix([Mark(ElemStart, name)] + AttributesReports(attributes));
    }
  }

  /** Where the end of an element leads. */
  function Outside(outer: seq<Name>): St {
    if outer == [] then Misc(3) else Misc(2)
  }

  lemma ClosesElement(m: Machine, name: Name, outer: seq<Name>)
    requires m.open == outer + [name]
    ensures CloseTop(m).m == m.(open := outer, tag := [], regs := if outer == [] then m.regs.(state := Misc(3)) else m.regs)
    ensures CloseTop(m).ret == ElemEnd
  {
    assert Front(outer + [name]) == outer;
  }

  lemma EmptyEnds(m: Machine, name: Name, outer: seq<Name>) returns (m': Machine)
    requires At(m, Elem(3), outer + [name])
    ensures Trip(m, [0x3E], m', [Mark(ElemEnd, [])]) && At(m', Outside(outer), outer) && m'.room == m.room
  {
    ElemRow(m.regs, 0x3E);
    var m1 := InState(m, Misc(2));
    ClosesElement(m1, name, outer);
    hide OnByte, Trip, CloseTop;
    StepIs(m, 0x3E, m1.regs, CloseSelf);
    m' := CloseTop(m1).m;
    One(m, 0x3E);
  }

  // ---------------------------------------------------------------- end tags

  lemma EndTagByte(m: Machine, c: Byte, name: Name, outer: seq<Name>)
    requires (m.regs.state == Etag(0) && NameStart(c)) || (m.regs.state == Etag(1) && NameByte(c))
    requires m.ignore == 0 && m.open == outer + [name] && |m.tag| < |name| && name[|m.tag|] == c
    ensures Trip(m, [c], InState(m, Etag(1)).(tag := m.tag + [c]), [])
  {
    EndTagStep(m, c, name, outer);
    hide Step, Trip;
    One(m, c);
  }

  lemma EndTagStep(m: Machine, c: Byte, name: Name, outer: seq<Name>)
    requires (m.regs.state == Etag(0) && NameStart(c)) || (m.regs.state == Etag(1) && NameByte(c))
    requires m.ignore == 0 && m.open == outer + [name] && |m.tag| < |name| && name[|m.tag|] == c
    ensures Step(m, c) == Outcome(InState(m, Etag(1)).(tag := m.tag + [c]), Ok)
  {
    ByteClasses(c);
    ElemRow(m.regs, c);
    hide OnByte, NameStart, NameByte, IsName, IsNameStart;
    assert Last(outer + [name]) == name;
    StepIs(m, c, InState(m, Etag(1)).regs, CloseChar);
  }

  lemma {:induction false} EndTagName(m: Machine, s: seq<Byte>, name: Name, outer: seq<Name>)
    requires m.regs.state == Etag(1) && m.ignore == 0 && m.open == outer + [name] && m.tag + s == name && NameBytes(s)
    ensures Trip(m, s, m.(tag := name), [])
    decreases |s|
  {
    hide Trip, NameBytes, NameByte;
    if s == [] {
      NoSuffix(m.tag);
      Nowhere(m);
    } else {
      var m1 := m.(tag := m.tag + [s[0]]);
      TailOfNames(s);
      assert name[|m.tag|] == s[0];
      EndTagByte(m, s[0], name, outer);
      assert InState(m, Etag(1)) == m;
      Assoc(m.tag, [s[0]], s[1..]);
      assert [s[0]] + s[1..] == s;
      EndTagName(m1, s[1..], name, outer);
      QuietFirst(m, [s[0]], m1, s[1..], m.(tag := name), []);
    }
  }

  lemma Slash(m: Machine)
    requires m.regs.state == Le(2) && m.ignore == 0
    ensures Trip(m, [0x2F], InState(m, Etag(0)), [])
  {
    LessRow(m.regs, 0x2F);
    hide OnByte, Trip;
    Silent(m, 0x2F, InState(m, Etag(0)).regs);
  }

  /** The end tag up to its name. */
  lemma EndTagBegins(m: Machine, name: Name, outer: seq<Name>)
    requires At(m, Misc(2), outer + [name]) && IsNameOf(name)
    ensures Trip(m, [0x3C, 0x2F] + name, InState(m, Etag(1)).(tag := name), [])
  {
    hide *;
    AtFields(m, Misc(2), outer + [name]);
    InContent(m);
    FirstOfTarget(name);
    var m1, m2 := InState(m, Le(2)), InState(m, Etag(0));
    var m3 := InState(m2, Etag(1)).(tag := [name[0]]);
    AngleOpens(m);
    StateIs(m, Le(2));
    Slash(m1);
    StateTwice(m, Le(2), Etag(0));
    StateIs(m, Etag(0));
    NoPrefix([name[0]]);
    EndTagByte(m2, name[0], name, outer);
    TagIs(m, name);
    EndTagName(m3, name[1..], name, outer);
    QuietFirst(m2, [name[0]], m3, name[1..], InState(m, Etag(1)).(tag := name), []);
    QuietFirst(m1, [0x2F], m2, name, InState(m, Etag(1)).(tag := name), []);
    QuietFirst(m, [0x3C], m1, [0x2F] + name, InState(m, Etag(1)).(tag := name), []);
    assert [0x3C] + ([0x2F] + name) == [0x3C, 0x2F] + name;
  }

  lemma TagIs(m: Machine, name: Name)
    requires name != []
    ensures var m3 := InState(InState(m, Etag(0)), Etag(1)).(tag := [name[0]]);
      && m3.(tag := name) == InState(m, Etag(1)).(tag := name)
      && m3.regs.state == Etag(1) && m3.ignore == m.ignore && m3.open == m.open && m3.tag == [name[0]]
  {
  }

  lemma EndTagCloses(m: Machine, c: Byte, name: Name, outer: seq<Name>)
    requires m.regs.state == Etag(1) && m.ignore == 0 && m.open == outer + [name] && m.tag == name && (IsSP(c) || c == 0x3E)
    ensures Trip(m, [c], InState(m, if outer == [] then Misc(3) else if c == 0x3E then Misc(2) else Etag(2)).(open := outer, tag := []),
                 [Mark(ElemEnd, [])])
  {
    ElemRow(m.regs, c);
    if IsSP(c) { SpaceIsNoName(c); }
    var m1 := InState(m, if c == 0x3E then Misc(2) else Etag(2));
    ClosesElement(m1, name, outer);
    hide OnByte, Trip, CloseTop, IsName;
    assert Last(outer + [name]) == name;
    StepIs(m, c, m1.regs, CloseEnd);
    One(m, c);
  }

  lemma SpacedEndTag(m: Machine)
    requires m.regs.state == Etag(2) && m.ignore == 0
    ensures Trip(m, [0x3E], InState(m, Misc(2)), [])
  {
    ElemRow(m.regs, 0x3E);
    hide OnByte, Trip;
    Silent(m, 0x3E, InState(m, Misc(2)).regs);
  }

  /** Behind the name in an end tag. */
  lemma EndTagRest(m: Machine, name: Name, last: seq<Byte>, outer: seq<Name>) returns (m': Machine)
    requires m.regs.state == Etag(1) && m.ignore == 0 && m.open == outer + [name] && m.tag == name && m.extra == []
    requires Blanks(last) && (outer == [] ==> last == [])
    ensures Trip(m, last + [0x3E], m', [Mark(ElemEnd, [])]) && At(m', Outside(outer), outer) && m'.room == m.room
  {
    m' := InState(m, Outside(outer)).(open := outer, tag := []);
    hide Trip, Blanks;
    if last == [] {
      EndTagCloses(m, 0x3E, name, outer);
      NoPrefix([0x3E]);
    } else {
      var m2 := InState(m, Etag(2)).(open := outer, tag := []);
      FirstBlank(last);
      NotGreater(last[0]);
      EndTagCloses(m, last[0], name, outer);
      ElemIdles();
      hide Idles, IsSP;
      Waits(m2, last[1..]);
      SpacedEndTag(m2);
      QuietFirst(m2, last[1..], m2, [0x3E], m', []);
      QuietLast(m, [last[0]], m2, [Mark(ElemEnd, [])], last[1..] + [0x3E], m');
      assert [last[0]] + (last[1..] + [0x3E]) == last + [0x3E];
    }
  }

  lemma EndIs(name: Name, last: seq<Byte>)
    ensures WriteEnd(name, last) == [0x3C, 0x2F] + (name + (last + [0x3E]))
  {
  }

  lemma NotGreater(c: Byte)
    requires IsSP(c)
    ensures c != 0x3E
  {
  }

  // ---------------------------------------------------------------- elements and content

  lemma EmptyParts(n: Node)
    requires n.Empty? && TakenNode(n)
    ensures IsNameOf(n.name) && TakenAttributes(n.attributes) && Blanks(n.space)
  {
    hide IsNameOf, TakenAttributes, Blanks;
  }

  lemma EmptyText(n: Node)
    requires n.Empty?
    ensures WriteNode(n) == [0x3C] + (n.name + (WriteAttributes(n.attributes) + (n.space + [0x2F, 0x3E])))
    ensures NodeReports(n) == [Mark(ElemStart, n.name)] + (AttributesReports(n.attributes) + [Mark(ElemEnd, [])])
    ensures |WriteNode(n)| > |n.name| + |WriteAttributes(n.attributes)|
  {
    hide WriteAttributes, AttributesReports;
  }

  lemma ElementParts(n: Node)
    requires n.Element? && TakenNode(n)
    ensures IsNameOf(n.name) && TakenAttributes(n.attributes) && Blanks(n.space) && TakenContent(n.content) && Blanks(n.last)
  {
    hide IsNameOf, TakenAttributes, Blanks, TakenContent;
  }

  lemma ElementText(n: Node)
    requires n.Element?
    ensures WriteNode(n) == [0x3C] + (n.name + (WriteAttributes(n.attributes) +
              (n.space + ([0x3E] + (WriteContent(n.content) + WriteEnd(n.name, n.last))))))
    ensures NodeReports(n) ==
              [Mark(ElemStart, n.name)] + (AttributesReports(n.attributes) + (ContentReports(n.content) + [Mark(ElemEnd, [])]))
    ensures |WriteNode(n)| == 1 + |n.name| + |WriteAttributes(n.attributes)| + |n.space| + 1 +
              |WriteContent(n.content)| + |WriteEnd(n.name, n.last)|
  {
    hide WriteAttributes, AttributesReports, WriteContent, ContentReports, WriteEnd;
  }

  /** An element behind its opening angle bracket. */
  ghost predicate ReadFrom(m: Machine, n: Node, outer: seq<Name>, m': Machine) {
    WriteNode(n) != [] && Trip(m, WriteNode(n)[1..], m', NodeReports(n)) && At(m', Outside(outer), outer) && m'.room == m.room
  }

  lemma ReadIs(m: Machine, n: Node, outer: seq<Name>, m': Machine, text: seq<Byte>)
    requires WriteNode(n) == [0x3C] + text && Trip(m, text, m', NodeReports(n)) && At(m', Outside(outer), outer) && m'.room == m.room
    ensures ReadFrom(m, n, outer, m')
  {
    assert WriteNode(n)[1..] == text;
    hide WriteNode, Trip, NodeReports, At;
  }

  lemma EmptyIsRead(m: Machine, s: St, n: Node, outer: seq<Name>) returns (m': Machine)
    requires (s == Le(0) || s == Le(1) || s == Le(2)) && At(m, s, outer) && n.Empty? && TakenNode(n)
    requires Roomy(m, |WriteNode(n)| - 1)
    ensures ReadFrom(m, n, outer, m')
  {
    hide *;
    EmptyParts(n);
    EmptyText(n);
    var name, attributes := n.name, WriteAttributes(n.attributes);
    LessRoom(m, |WriteNode(n)| - 1, |name| + |attributes|);
    LessRoom(m, |name| + |attributes|, |name|);
    var m1 := OpensName(m, s, name, outer);
    RoomLeft(m, name, m1, [], |attributes|);
    var m2 := TagIsRead(m1, n.attributes, n.space, 0x2F, name, outer);
    m' := EmptyEnds(m2, name, outer);
    var told := [Mark(ElemStart, name)] + AttributesReports(n.attributes);
    Join(m1, attributes + (n.space + [0x2F]), m2, told, [0x3E], m', [Mark(ElemEnd, [])]);
    assert attributes + (n.space + [0x2F]) + [0x3E] == attributes + (n.space + [0x2F, 0x3E]);
    Assoc([Mark(ElemStart, name)], AttributesReports(n.attributes), [Mark(ElemEnd, [])]);
    QuietFirst(m, name, m1, attributes + (n.space + [0x2F, 0x3E]), m', NodeReports(n));
    ReadIs(m, n, outer, m', name + (attributes + (n.space + [0x2F, 0x3E])));
  }

  /** An element behind its opening angle bracket, up to the name in its end tag. */
  function Beginning(n: Node): seq<Byte>
    requires n.Element?
  {
    n.name + (WriteAttributes(n.attributes) + (n.space + ([0x3E] + (WriteContent(n.content) + ([0x3C, 0x2F] + n.name)))))
  }

  function BeginningReports(n: Node): seq<Report>
    requires n.Element?
  {
    [Mark(ElemStart, n.name)] + (AttributesReports(n.attributes) + ContentReports(n.content))
  }

  lemma BeginningText(n: Node)
    requires n.Element?
    ensures WriteNode(n) == [0x3C] + (Beginning(n) + (n.last + [0x3E]))
    ensures NodeReports(n) == BeginningReports(n) + [Mark(ElemEnd, [])]
  {
    ElementText(n);
    EndIs(n.name, n.last);
    BeginningIs(n);
    hide *;
    var end := n.last + [0x3E];
    var e := WriteContent(n.content) + ([0x3C, 0x2F] + n.name);
    Assoc([0x3C, 0x2F], n.name, end);
    Assoc(WriteContent(n.content), [0x3C, 0x2F] + n.name, end);
    Assoc([0x3E], e, end);
    Assoc(n.space, [0x3E] + e, end);
    Assoc(WriteAttributes(n.attributes), n.space + ([0x3E] + e), end);
    Assoc(n.name, WriteAttributes(n.attributes) + (n.space + ([0x3E] + e)), end);
    Assoc(AttributesReports(n.attributes), ContentReports(n.content), [Mark(ElemEnd, [])]);
    Assoc([Mark(ElemStart, n.name)], AttributesReports(n.attributes) + ContentReports(n.content), [Mark(ElemEnd, [])]);
  }

  lemma BeginningIs(n: Node)
    requires n.Element?
    ensures Beginning(n) ==
      n.name + (WriteAttributes(n.attributes) + (n.space + ([0x3E] + (WriteContent(n.content) + ([0x3C, 0x2F] + n.name)))))
    ensures BeginningReports(n) == [Mark(ElemStart, n.name)] + (AttributesReports(n.attributes) + ContentReports(n.content))
    ensures |Beginning(n)| == 2 * |n.name| + |WriteAttributes(n.attributes)| + |n.space| + 1 + |WriteContent(n.content)| + 2
  {
    hide WriteAttributes, WriteContent, AttributesReports, ContentReports;
  }

  lemma {:induction false} BeginningIsRead(m: Machine, s: St, n: Node, outer: seq<Name>) returns (m': Machine)
    requires (s == Le(0) || s == Le(1) || s == Le(2)) && At(m, s, outer) && n.Element? && TakenNode(n) && Roomy(m, |Beginning(n)|)
    ensures Trip(m, Beginning(n), m', BeginningReports(n)) && m'.room == m.room
    ensures m'.regs.state == Etag(1) && m'.ignore == 0 && m'.open == outer + [n.name] && m'.tag == n.name && m'.extra == []
    decreases n, 0
  {
    hide *;
    ElementParts(n);
    BeginningIs(n);
    var name, attributes, content := n.name, WriteAttributes(n.attributes), WriteContent(n.content);
    var tag, end := attributes + (n.space + [0x3E]), [0x3C, 0x2F] + n.name;
    var m1 := OpensName(m, s, name, outer) by { LessRoom(m, |Beginning(n)|, |name|); }
    LessRoom(m, |Beginning(n)|, |name| + |tag| + |content|);
    RoomLeft(m, name, m1, [], |tag| + |content|);
    LessRoom(m1, |tag| + |content|, |attributes|);
    var m2 := TagIsRead(m1, n.attributes, n.space, 0x3E, name, outer);
    var told := [Mark(ElemStart, name)] + AttributesReports(n.attributes);
    RoomLeft(m1, tag, m2, told, |content|);
    NotEmpty(outer, name);
    var m3 := ContentIsRead(m2, n.content, outer + [name]);
    AtFields(m3, Misc(2), outer + [name]);
    EndTagBegins(m3, name, outer);
    m' := InState(m3, Etag(1)).(tag := name);
    StateIs(m3, Etag(1));
    QuietLast(m2, content, m3, ContentReports(n.content), end, m');
    Join(m1, tag, m2, told, content + end, m', ContentReports(n.content));
    Assoc([Mark(ElemStart, name)], AttributesReports(n.attributes), ContentReports(n.content));
    Assoc(attributes, n.space + [0x3E], content + end);
    Assoc(n.space, [0x3E], content + end);
    QuietFirst(m, name, m1, tag + (content + end), m', BeginningReports(n));
  }

  lemma {:induction false} ElementIsRead(m: Machine, s: St, n: Node, outer: seq<Name>) returns (m': Machine)
    requires (s == Le(0) || s == Le(1) || s == Le(2)) && At(m, s, outer) && n.Element? && TakenNode(n)
    requires Roomy(m, |WriteNode(n)| - 1) && (outer == [] ==> n.last == [])
    ensures ReadFrom(m, n, outer, m')
    decreases n, 1
  {
    hide *;
    ElementParts(n);
    BeginningText(n);
    LessRoom(m, |WriteNode(n)| - 1, |Beginning(n)|);
    var m1 := BeginningIsRead(m, s, n, outer);
    m' := EndTagRest(m1, n.name, n.last, outer);
    Join(m, Beginning(n), m1, BeginningReports(n), n.last + [0x3E], m', [Mark(ElemEnd, [])]);
    ReadIs(m, n, outer, m', Beginning(n) + (n.last + [0x3E]));
  }

  lemma NotEmpty(outer: seq<Name>, name: Name)
    ensures outer + [name] != []
  {
  }

  lemma {:induction false} ContentIsRead(m: Machine, nodes: seq<Node>, open: seq<Name>) returns (m': Machine)
    requires At(m, Misc(2), open) && open != [] && TakenContent(nodes) && Roomy(m, |WriteContent(nodes)|)
    ensures Trip(m, WriteContent(nodes), m', ContentReports(nodes)) && At(m', Misc(2), open) && m'.room == m.room
    decreases nodes, 0
  {
    hide *;
    if nodes == [] {
      m' := m;
      NoContent(nodes);
      Nowhere(m);
    } else {
      ContentParts(nodes);
      ContentText(nodes);
      LessRoom(m, |WriteContent(nodes)|, |WriteNode(nodes[0])|);
      var m1 := NodeIsRead(m, nodes[0], open);
      RoomLeft(m, WriteNode(nodes[0]), m1, NodeReports(nodes[0]), |WriteContent(nodes[1..])|);
      m' := ContentIsRead(m1, nodes[1..], open);
      Join(m, WriteNode(nodes[0]), m1, NodeReports(nodes[0]), WriteContent(nodes[1..]), m', ContentReports(nodes[1..]));
    }
  }

  lemma NoContent(nodes: seq<Node>)
    requires nodes == []
    ensures WriteContent(nodes) == [] && ContentReports(nodes) == []
  {
  }

  lemma ContentParts(nodes: seq<Node>)
    requires nodes != [] && TakenContent(nodes)
    ensures TakenNode(nodes[0]) && TakenContent(nodes[1..])
  {
    hide TakenNode;
  }

  lemma ContentText(nodes: seq<Node>)
    requires nodes != []
    ensures WriteContent(nodes) == WriteNode(nodes[0]) + WriteContent(nodes[1..])
    ensures ContentReports(nodes) == NodeReports(nodes[0]) + ContentReports(nodes[1..])
  {
    hide WriteNode, NodeReports;
  }

  lemma LeafParts(n: Node)
    requires TakenNode(n)
    ensures n.Character? ==> TakenPiece(n.p)
    ensures n.CData? ==> TakenCData(n.bytes)
    ensures n.Note? ==> TakenComment(n.bytes)
    ensures n.Process? ==> TakenInstruction(n.pi)
    ensures n.Character? || n.CData? || n.Note? || n.Process? || n.Empty? || n.Element?
  {
    hide TakenPiece, TakenCData, TakenComment, TakenInstruction;
  }

  /** A node of the content that is no element. */
  lemma LeafText(n: Node)
    ensures n.Character? ==> WriteNode(n) == WritePiece(n.p) && NodeReports(n) == Data(Content, TextOf(n.p))
    ensures n.CData? ==> WriteNode(n) == WriteCData(n.bytes) && NodeReports(n) == Data(Content, n.bytes)
    ensures n.Note? ==> WriteNode(n) == WriteComment(n.bytes) && NodeReports(n) == []
    ensures n.Process? ==> WriteNode(n) == WriteInstruction(n.pi) && NodeReports(n) == InstructionReports(n.pi)
    ensures n.Empty? || n.Element? ==> WriteNode(n) != [] && [0x3C] + WriteNode(n)[1..] == WriteNode(n)
  {
    hide WritePiece, TextOf, WriteCData, WriteComment, WriteInstruction, InstructionReports;
    hide WriteAttributes, WriteContent, WriteEnd, AttributesReports, ContentReports;
  }

  lemma TextStays(m: Machine, m': Machine, open: seq<Name>)
    requires At(m, Misc(2), open) && SameBut(m, m')
    ensures At(m', Misc(2), open) && m'.room == m.room
  {
  }

  lemma InTheContent()
    ensures Context(Misc(2)) && Back(Misc(2)) == Misc(2) && Angle(Misc(2)) == Le(2)
  {
  }

  lemma OutsideIs(open: seq<Name>)
    requires open != []
    ensures Outside(open) == Misc(2)
  {
  }

  lemma ReadParts(m: Machine, n: Node, outer: seq<Name>, m': Machine)
    requires ReadFrom(m, n, outer, m')
    ensures WriteNode(n) != [] && Trip(m, WriteNode(n)[1..], m', NodeReports(n)) && At(m', Outside(outer), outer) && m'.room == m.room
  {
    hide WriteNode, Trip, NodeReports, At;
  }

  lemma AngleAt(m: Machine, s: St, open: seq<Name>)
    requires At(m, s, open) && Context(s)
    ensures At(InState(m, Angle(s)), Angle(s), open)
  {
    hide Angle;
  }

  lemma {:induction false} NodeIsRead(m: Machine, n: Node, open: seq<Name>) returns (m': Machine)
    requires At(m, Misc(2), open) && open != [] && TakenNode(n) && Roomy(m, |WriteNode(n)|)
    ensures Trip(m, WriteNode(n), m', NodeReports(n)) && At(m', Misc(2), open) && m'.room == m.room
    decreases n, 2
  {
    hide *;
    AtFields(m, Misc(2), open);
    InTheContent();
    LeafParts(n);
    LeafText(n);
    if n.Character? {
      m' := TextIsRead(m, n.p);
      TextStays(m, m', open);
    } else if n.CData? {
      m' := CdataIsRead(m, n.bytes, open);
    } else if n.Note? {
      m' := CommentIsRead(m, n.bytes, open);
    } else if n.Process? {
      m' := InstructionIsRead(m, n.pi, open);
    } else {
      var m1 := InState(m, Le(2));
      AngleOpens(m);
      AngleAt(m, Misc(2), open);
      OutsideIs(open);
      RoomLeft(m, [0x3C], m1, [], |WriteNode(n)| - 1);
      if n.Empty? { m' := EmptyIsRead(m1, Le(2), n, open); } else { m' := ElementIsRead(m1, Le(2), n, open); }
      ReadParts(m1, n, open, m');
      QuietFirst(m, [0x3C], m1, WriteNode(n)[1..], m', NodeReports(n));
    }
  }
}
