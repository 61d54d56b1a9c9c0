// Comments, CDATA sections and processing instructions, wherever they may stand, as the XML automaton takes them.
module XmlMarkup {
  import opened Bytes
  import opened Sequences
  import opened XmlStates
  import opened XmlAutomaton
  import opened XmlDocuments
  import opened XmlTaken
  import opened XmlSteps
  import opened XmlRuns

  /** The machine is in the state, with these elements open and nothing else on the stack. */
  ghost predicate At(m: Machine, s: St, open: seq<Name>) {
    m.regs.state == s && m.ignore == 0 && m.open == open && m.extra == [] && m.tag == []
  }

  function InState(m: Machine, s: St): Machine {
    m.(regs := m.regs.(state := s))
  }

  // ---------------------------------------------------------------- where markup begins

  /** Before, in and behind the root element, and in the document type. */
  predicate Context(s: St) {
    s == Init || s == Misc(0) || s == Misc(1) || s == Misc(2) || s == Misc(3) || s == Dt(0)
  }

  /** Where a comment or an instruction leads back to. */
  function Back(s: St): St {
    if s == Init || s == Misc(0) then Misc(1) else s
  }

  function Angle(s: St): St {
    if s == Init || s == Misc(0) then Le(0)
    else if s == Misc(1) then Le(1)
    else if s == Misc(2) then Le(2)
    else if s == Misc(3) then Le(3)
    else Dt(2)
  }

  lemma AngleOpens(m: Machine)
    requires Context(m.regs.state) && m.ignore == 0
    ensures Trip(m, [0x3C], InState(m, Angle(m.regs.state)), [])
  {
    if m.regs.state == Dt(0) { DoctypeRow(m.regs, 0x3C); } else { MiscRow(m.regs, 0x3C); }
    hide OnByte, Trip;
    Silent(m, 0x3C, m.regs.(state := Angle(m.regs.state)));
  }

  /** Behind an exclamation mark. */
  function Exclaimed(s: St): St {
    if s == Misc(2) then Lee(2) else if s == Misc(3) then St.Comment(0) else if s == Dt(0) then Dt(3) else Lee(1)
  }

  lemma Exclaims(m: Machine, s: St)
    requires Context(s) && m.regs.state == Angle(s) && m.ignore == 0
    ensures Trip(m, [0x21],
      m.(regs := m.regs.(state := Exclaimed(s), next := if s == Misc(3) then Misc(3) else m.regs.next)), [])
  {
    if s == Dt(0) { DoctypeRow(m.regs, 0x21); } else { LessRow(m.regs, 0x21); }
    hide OnByte, Trip;
    Silent(m, 0x21, m.regs.(state := Exclaimed(s), next := if s == Misc(3) then Misc(3) else m.regs.next));
  }

  lemma FirstDash(m: Machine, s: St)
    requires Context(s) && m.regs.state == Exclaimed(s) && (s == Misc(3) ==> m.regs.next == Misc(3)) && m.ignore == 0
    ensures Trip(m, [0x2D], m.(regs := m.regs.(state := St.Comment(1), next := Back(s))), [])
  {
    if s == Dt(0) { DoctypeRow(m.regs, 0x2D); }
    else if s == Misc(3) { CommentRow(m.regs, 0x2D); }
    else { MarkRow(m.regs, 0x2D); }
    hide OnByte, Trip;
    Silent(m, 0x2D, m.regs.(state := St.Comment(1), next := Back(s)));
  }

  lemma CommentStep(m: Machine, c: Byte, n: nat)
    requires m.regs.state.Comment? && Plainly(m, c)
    requires OnComment(m.regs, c) == React(m.regs.(state := St.Comment(n)), Give(Ok))
    ensures Trip(m, [c], InState(m, St.Comment(n)), [])
  {
    CommentRow(m.regs, c);
    hide OnByte, Trip, OnComment;
    Silent(m, c, m.regs.(state := St.Comment(n)));
  }

  // ---------------------------------------------------------------- comments

  lemma CommentByte(m: Machine, c: Byte)
    requires m.regs.state == St.Comment(2) && m.ignore == 0 && Clean(c) && c != 0x2D
    ensures Trip(m, [c], m, [])
  {
    CommentStep(m, c, 2);
    assert InState(m, St.Comment(2)) == m;
    hide *;
  }

  lemma DashAndByte(m: Machine, c: Byte)
    requires m.regs.state == St.Comment(2) && m.ignore == 0 && Clean(c) && c != 0x2D
    ensures Trip(m, [0x2D, c], m, [])
  {
    var m1 := InState(m, St.Comment(3));
    CommentStep(m, 0x2D, 3);
    CommentStep(m1, c, 2);
    assert InState(m1, St.Comment(2)) == m && [0x2D] + [c] == [0x2D, c];
    hide *;
    QuietFirst(m, [0x2D], m1, [c], m, []);
  }

  lemma {:induction false} CommentBody(m: Machine, s: seq<Byte>)
    requires m.regs.state == St.Comment(2) && m.ignore == 0 && TakenComment(s)
    ensures Trip(m, s, m, [])
    decreases |s|
  {
    hide *;
    CommentParts(s);
    if s == [] {
      Nowhere(m);
    } else if s[0] != 0x2D {
      CommentByte(m, s[0]);
      CommentBody(m, s[1..]);
      assert [s[0]] + s[1..] == s;
      QuietFirst(m, [s[0]], m, s[1..], m, []);
    } else {
      DashAndByte(m, s[1]);
      CommentBody(m, s[2..]);
      assert [0x2D, s[1]] + s[2..] == s;
      QuietFirst(m, [0x2D, s[1]], m, s[2..], m, []);
    }
  }

  lemma CommentParts(s: seq<Byte>)
    requires TakenComment(s)
    ensures s != [] ==> Clean(s[0])
    ensures s != [] && s[0] != 0x2D ==> TakenComment(s[1..])
    ensures s != [] && s[0] == 0x2D ==> |s| > 1 && Clean(s[1]) && s[1] != 0x2D && TakenComment(s[2..])
  {
  }

  lemma CommentEnds(m: Machine)
    requires m.regs.state == St.Comment(2) && m.ignore == 0
    ensures Trip(m, [0x2D, 0x2D, 0x3E], InState(m, m.regs.next), [])
  {
    var m1, m2, m3 := InState(m, St.Comment(3)), InState(m, St.Comment(4)), InState(m, m.regs.next);
    CommentStep(m, 0x2D, 3);
    CommentStep(m1, 0x2D, 4);
    CommentRow(m2.regs, 0x3E);
    hide OnByte, Trip;
    Silent(m2, 0x3E, m2.regs.(state := m2.regs.next));
    assert InState(m2, m2.regs.next) == m3 && InState(m1, St.Comment(4)) == m2;
    assert [0x2D] + ([0x2D] + [0x3E]) == [0x2D, 0x2D, 0x3E];
    QuietFirst(m1, [0x2D], m2, [0x3E], m3, []);
    QuietFirst(m, [0x2D], m1, [0x2D] + [0x3E], m3, []);
  }

  lemma CommentStarts(m: Machine) returns (m': Machine)
    requires Context(m.regs.state) && m.ignore == 0
    ensures Trip(m, [0x3C, 0x21, 0x2D, 0x2D], m', [])
    ensures m'.regs.state == St.Comment(2) && m'.regs.next == Back(m.regs.state) && m' == m.(regs := m'.regs)
  {
    hide *;
    var s := m.regs.state;
    var m1 := InState(m, Angle(s));
    var m2 := m1.(regs := m1.regs.(state := Exclaimed(s), next := if s == Misc(3) then Misc(3) else m1.regs.next));
    var m3 := m2.(regs := m2.regs.(state := St.Comment(1), next := Back(s)));
    m' := InState(m3, St.Comment(2));
    StateIs(m, Angle(s));
    StateIs(m3, St.Comment(2));
    AngleOpens(m);
    Exclaims(m1, s);
    FirstDash(m2, s);
    SecondDash(m3);
    assert [0x3C] + ([0x21] + ([0x2D] + [0x2D])) == [0x3C, 0x21, 0x2D, 0x2D];
    QuietFirst(m2, [0x2D], m3, [0x2D], m', []);
    QuietFirst(m1, [0x21], m2, [0x2D] + [0x2D], m', []);
    QuietFirst(m, [0x3C], m1, [0x21] + ([0x2D] + [0x2D]), m', []);
  }

  lemma SecondDash(m: Machine)
    requires m.regs.state == St.Comment(1) && m.ignore == 0
    ensures Trip(m, [0x2D], InState(m, St.Comment(2)), [])
  {
    CommentStep(m, 0x2D, 2);
  }

  lemma CommentIsRead(m: Machine, s: seq<Byte>, open: seq<Name>) returns (m': Machine)
    requires Context(m.regs.state) && At(m, m.regs.state, open) && TakenComment(s)
    ensures Trip(m, WriteComment(s), m', []) && At(m', Back(m.regs.state), open) && m'.room == m.room
  {
    var m1 := CommentStarts(m);
    m' := InState(m1, m1.regs.next);
    CommentBody(m1, s);
    CommentEnds(m1);
    hide Trip, Context, TakenComment, Back;
    QuietFirst(m1, s, m1, [0x2D, 0x2D, 0x3E], m', []);
    QuietFirst(m, [0x3C, 0x21, 0x2D, 0x2D], m1, s + [0x2D, 0x2D, 0x3E], m', []);
  }

  // ---------------------------------------------------------------- CDATA sections

  /** Brackets that have been read and may belong to the end of the section. */
  function Held(c: Byte, k: nat): seq<Byte> {
    if k == 0 then [] else [c] + Held(c, k - 1)
  }

  function CdataNext(k: nat, c: Byte): nat {
    if c == 0x5D then (if k < 2 then k + 1 else 2) else 0
  }

  /** What one byte sets free. */
  function CdataSays(k: nat, c: Byte): seq<Byte> {
    if c == 0x5D then (if k < 2 then [] else [0x5D]) else Held(0x5D, k) + [c]
  }

  lemma HeldIs(c: Byte)
    ensures Held(c, 0) == [] && Held(c, 1) == [c] && Held(c, 2) == [c, c]
  {
    assert Held(c, 1) == [c] + Held(c, 0);
    assert Held(c, 2) == [c] + Held(c, 1);
  }

  lemma CdataReacts(r: Regs, k: nat, c: Byte)
    requires k < 3 && r.state == Cd(k) && !(k == 2 && c == 0x3E)
    ensures OnByte(r, c) == React(r.(state := Cd(CdataNext(k, c))), Give(if c == 0x5D && k < 2 then Ok else Content))
  {
    CdataRow(r, c);
    hide OnByte;
  }

  lemma CdataTold(m: Machine, k: nat, c: Byte)
    requires k < 3 && m.regs.state == Cd(k) && Step(m, c).ret == Content && c != 13 && !(c == 0x5D && k < 2)
    ensures Told(m, c) == Data(Content, CdataSays(k, c))
  {
    HeldIs(0x5D);
    NoPrefix([c]);
    assert [0x5D] + [c] == [0x5D, c] && [0x5D, 0x5D] + [c] == [0x5D, 0x5D, c];
    hide Step, Data, Held;
  }

  lemma CdataKeeps(k: nat, c: Byte)
    requires k < 3
    ensures Held(0x5D, k) + [c] == CdataSays(k, c) + Held(0x5D, CdataNext(k, c))
  {
    HeldIs(0x5D);
    NoSuffix(Held(0x5D, k) + [c]);
    hide Held;
  }

  lemma CdataByte(m: Machine, k: nat, c: Byte)
    requires k < 3 && m.regs.state == Cd(k) && m.ignore == 0 && Clean(c) && !(k == 2 && c == 0x3E)
    ensures Trip(m, [c], InState(m, Cd(CdataNext(k, c))), Data(Content, CdataSays(k, c)))
    ensures Held(0x5D, k) + [c] == CdataSays(k, c) + Held(0x5D, CdataNext(k, c))
  {
    CdataKeeps(k, c);
    CdataReacts(m.regs, k, c);
    hide OnByte, Trip, Data, Held, Step, Told;
    var r := m.regs.(state := Cd(CdataNext(k, c)));
    if c == 0x5D && k < 2 {
      Silent(m, c, r);
      EmptyData();
    } else {
      Gives(m, c, r, Content);
      CdataTold(m, k, c);
    }
  }

  lemma EmptyData()
    ensures Data(Content, []) == [] && Data(PiContent, []) == []
  {
  }

  lemma {:induction false} CdataBody(m: Machine, k: nat, s: seq<Byte>) returns (j: nat, said: seq<Byte>)
    requires k < 3 && m.regs.state == Cd(k) && m.ignore == 0 && Cleans(s) && NeverThree(Held(0x5D, k) + s, 0x5D, 0x5D, 0x3E)
    ensures j < 3 && Trip(m, s, InState(m, Cd(j)), Data(Content, said)) && Held(0x5D, k) + s == said + Held(0x5D, j)
    decreases |s|
  {
    hide *;
    if s == [] {
      j, said := k, [];
      assert InState(m, Cd(k)) == m by { SameState(m); }
      Nowhere(m);
      EmptyData();
      NoPrefix(Held(0x5D, k));
      NoSuffix(Held(0x5D, k));
    } else {
      var c, rest := s[0], s[1..];
      CdataParts(k, s);
      CdataByte(m, k, c);
      var i := CdataNext(k, c);
      NextIsSmall(k, c);
      var m1 := InState(m, Cd(i));
      StateIs(m, Cd(i));
      CdataSuffix(k, s);
      var said1;
      j, said1 := CdataBody(m1, i, rest);
      said := CdataSays(k, c) + said1;
      StateTwice(m, Cd(i), Cd(j));
      Join(m, [c], m1, Data(Content, CdataSays(k, c)), rest, InState(m, Cd(j)), Data(Content, said1));
      DataConcat(Content, CdataSays(k, c), said1);
      assert [c] + rest == s;
      Regroup(Held(0x5D, k), c, rest, CdataSays(k, c), Held(0x5D, i), said1, Held(0x5D, j));
    }
  }

  lemma SameState(m: Machine)
    ensures InState(m, m.regs.state) == m
  {
  }

  lemma StateIs(m: Machine, s: St)
    ensures InState(m, s).regs.state == s && InState(m, s).ignore == m.ignore && InState(m, s).regs.next == m.regs.next
    ensures InState(m, s) == m.(regs := InState(m, s).regs)
  {
  }

  lemma StateTwice(m: Machine, s: St, t: St)
    ensures InState(InState(m, s), t) == InState(m, t)
  {
  }

  lemma NextIsSmall(k: nat, c: Byte)
    requires k < 3
    ensures CdataNext(k, c) < 3
  {
  }

  lemma CdataParts(k: nat, s: seq<Byte>)
    requires k < 3 && Cleans(s) && s != [] && NeverThree(Held(0x5D, k) + s, 0x5D, 0x5D, 0x3E)
    ensures Clean(s[0]) && Cleans(s[1..]) && !(k == 2 && s[0] == 0x3E)
  {
    HeldIs(0x5D);
    if k == 2 {
      var t := Held(0x5D, 2) + s;
      assert t[0] == 0x5D && t[1] == 0x5D && t[2] == s[0];
    }
  }

  lemma CdataSuffix(k: nat, s: seq<Byte>)
    requires k < 3 && s != [] && NeverThree(Held(0x5D, k) + s, 0x5D, 0x5D, 0x3E)
    requires Held(0x5D, k) + [s[0]] == CdataSays(k, s[0]) + Held(0x5D, CdataNext(k, s[0]))
    ensures NeverThree(Held(0x5D, CdataNext(k, s[0])) + s[1..], 0x5D, 0x5D, 0x3E)
  {
    var whole := Held(0x5D, k) + s;
    var out, part := CdataSays(k, s[0]), Held(0x5D, CdataNext(k, s[0])) + s[1..];
    assert whole == Held(0x5D, k) + [s[0]] + s[1..];
    assert whole == out + part;
    hide Held, CdataSays, CdataNext;
    forall i | 0 <= i < |part| - 2
      ensures !(part[i] == 0x5D && part[i + 1] == 0x5D && part[i + 2] == 0x3E)
    {
      assert whole[|out| + i] == part[i] && whole[|out| + i + 1] == part[i + 1] && whole[|out| + i + 2] == part[i + 2];
    }
  }

  lemma Regroup(held: seq<Byte>, c: Byte, rest: seq<Byte>, out: seq<Byte>, held1: seq<Byte>, out1: seq<Byte>, held2: seq<Byte>)
    requires held + [c] == out + held1 && held1 + rest == out1 + held2
    ensures held + ([c] + rest) == out + out1 + held2
  {
    Assoc(held, [c], rest);
    Assoc(out, held1, rest);
    Assoc(out, out1, held2);
  }

  lemma CdataEnds(m: Machine, k: nat)
    requires k < 3 && m.regs.state == Cd(k) && m.ignore == 0
    ensures Trip(m, [0x5D, 0x5D, 0x3E], InState(m, Misc(2)), Data(Content, Held(0x5D, k)))
  {
    hide *;
    var i := CdataNext(k, 0x5D);
    var m1, m2, m3 := InState(m, Cd(i)), InState(m, Cd(2)), InState(m, Misc(2));
    TwoBrackets(k);
    NextIsSmall(k, 0x5D);
    BracketIsClean();
    StateIs(m, Cd(i));
    StateTwice(m, Cd(i), Cd(2));
    CdataByte(m, k, 0x5D);
    CdataByte(m1, i, 0x5D);
    CdataCloses(m);
    QuietLast(m1, [0x5D], m2, Data(Content, CdataSays(i, 0x5D)), [0x3E], m3);
    Join(m, [0x5D], m1, Data(Content, CdataSays(k, 0x5D)), [0x5D] + [0x3E], m3, Data(Content, CdataSays(i, 0x5D)));
    DataConcat(Content, CdataSays(k, 0x5D), CdataSays(i, 0x5D));
    assert [0x5D] + ([0x5D] + [0x3E]) == [0x5D, 0x5D, 0x3E];
  }

  lemma TwoBrackets(k: nat)
    requires k < 3
    ensures CdataNext(CdataNext(k, 0x5D), 0x5D) == 2
    ensures CdataSays(k, 0x5D) + CdataSays(CdataNext(k, 0x5D), 0x5D) == Held(0x5D, k)
  {
    HeldIs(0x5D);
    hide Held;
  }

  lemma BracketIsClean()
    ensures Clean(0x5D)
  {
  }

  lemma CdataCloses(m: Machine)
    requires m.ignore == 0
    ensures Trip(InState(m, Cd(2)), [0x3E], InState(m, Misc(2)), [])
  {
    CdataRow(InState(m, Cd(2)).regs, 0x3E);
    hide OnByte, Trip;
    Silent(InState(m, Cd(2)), 0x3E, InState(m, Misc(2)).regs);
  }

  const SECTION: seq<Byte> := [0x43, 0x44, 0x41, 0x54, 0x41, 0x5B]

  /** The machine that expects a fixed string. */
  function Expecting(m: Machine, next: St, word: seq<Byte>): Machine {
    m.(regs := m.regs.(state := StString, next := next, literal := word))
  }

  function Spelled(m: Machine): Machine {
    m.(regs := m.regs.(state := m.regs.next, literal := []))
  }

  lemma BracketStarts(m: Machine)
    requires m.regs.state == Lee(2) && m.ignore == 0
    ensures Trip(m, [0x5B], Expecting(m, Cd(0), SECTION), [])
  {
    CdataWord();
    MarkRow(m.regs, 0x5B);
    hide OnByte, Trip, Text;
    Silent(m, 0x5B, Expecting(m, Cd(0), SECTION).regs);
  }

  lemma Expected(m: Machine, next: St, word: seq<Byte>)
    requires word != [] && NUL !in word && 13 !in word && m.ignore == 0
    ensures Trip(Expecting(m, next, word), word, Spelled(Expecting(m, next, word)), [])
    ensures var m' := Spelled(Expecting(m, next, word)); m'.regs.state == next && m' == m.(regs := m'.regs)
    ensures var m' := Spelled(Expecting(m, next, word)); m'.regs.quote == m.regs.quote
  {
    Spells(Expecting(m, next, word), word);
    hide Trip;
  }

  lemma CdataStarts(m: Machine) returns (m': Machine)
    requires m.regs.state == Misc(2) && m.ignore == 0
    ensures Trip(m, [0x3C, 0x21, 0x5B, 0x43, 0x44, 0x41, 0x54, 0x41, 0x5B], m', [])
    ensures m'.regs.state == Cd(0) && m' == m.(regs := m'.regs)
  {
    hide *;
    var m1, m2 := InState(m, Le(2)), InState(m, Lee(2));
    var m3 := Expecting(m2, Cd(0), SECTION);
    m' := Spelled(m3);
    InContent(m);
    StateIs(m, Le(2));
    StateIs(m, Lee(2));
    AngleOpens(m);
    Exclaims(m1, Misc(2));
    BracketStarts(m2);
    SectionFits();
    Expected(m2, Cd(0), SECTION);
    QuietFirst(m2, [0x5B], m3, SECTION, m', []);
    QuietFirst(m1, [0x21], m2, [0x5B] + SECTION, m', []);
    QuietFirst(m, [0x3C], m1, [0x21] + ([0x5B] + SECTION), m', []);
  }

  lemma InContent(m: Machine)
    ensures Context(Misc(2)) && Angle(Misc(2)) == Le(2) && Exclaimed(Misc(2)) == Lee(2)
    ensures var m1 := InState(m, Le(2)); InState(m, Lee(2)) == m1.(regs := m1.regs.(state := Lee(2), next := m1.regs.next))
  {
  }

  lemma SectionFits()
    ensures SECTION != [] && NUL !in SECTION && 13 !in SECTION
    ensures [0x3C] + ([0x21] + ([0x5B] + SECTION)) == [0x3C, 0x21, 0x5B, 0x43, 0x44, 0x41, 0x54, 0x41, 0x5B]
  {
  }

  lemma CdataWord()
    ensures Text("CDATA[") == [0x43, 0x44, 0x41, 0x54, 0x41, 0x5B]
  {
    assert "CDATA["[1..] == "DATA[" && "DATA["[1..] == "ATA[" ;
    Four('A', 'T', 'A', '[');
  }

  lemma CdataIsRead(m: Machine, s: seq<Byte>, open: seq<Name>) returns (m': Machine)
    requires At(m, Misc(2), open) && TakenCData(s)
    ensures Trip(m, WriteCData(s), m', Data(Content, s)) && At(m', Misc(2), open) && m'.room == m.room
  {
    HeldIs(0x5D);
    NoPrefix(s);
    var m1 := CdataStarts(m);
    var k, said := CdataBody(m1, 0, s);
    var m2 := InState(m1, Cd(k));
    CdataEnds(m2, k);
    m' := InState(m2, Misc(2));
    hide Trip, Data, Held, TakenCData;
    DataConcat(Content, said, Held(0x5D, k));
    Join(m1, s, m2, Data(Content, said), [0x5D, 0x5D, 0x3E], m', Data(Content, Held(0x5D, k)));
    QuietFirst(m, [0x3C, 0x21, 0x5B, 0x43, 0x44, 0x41, 0x54, 0x41, 0x5B], m1, s + [0x5D, 0x5D, 0x3E], m', Data(Content, s));
  }
}
