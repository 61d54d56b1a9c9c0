// Processing instructions, wherever they may stand, as the XML automaton takes them, and exactly which of them it closes.
module XmlInstructions {
  import opened Bytes
  import opened Sequences
  import opened XmlStates
  import opened XmlAutomaton
  import opened XmlDocuments
  import opened XmlTaken
  import opened XmlSteps
  import opened XmlRuns
  import opened XmlMarkup

  // ---------------------------------------------------------------- the target

  /** Behind the question mark. */
  function Asked(s: St): St {
    if s == Init || s == Misc(0) then Leq0 else Pi(0)
  }

  lemma Asks(m: Machine, s: St)
    requires Context(s) && m.regs.state == Angle(s) && m.ignore == 0
    ensures Trip(m, [0x3F], m.(regs := m.regs.(state := Asked(s), next := if Asked(s) == Leq0 then m.regs.next else Back(s))), [])
  {
    if s == Dt(0) { DoctypeRow(m.regs, 0x3F); } else { LessRow(m.regs, 0x3F); }
    hide OnByte, Trip;
    Silent(m, 0x3F, m.regs.(state := Asked(s), next := if Asked(s) == Leq0 then m.regs.next else Back(s)));
  }

  /** The first byte of the target. An x at the start of a document may begin the XML declaration. */
  lemma TargetStarts(m: Machine, s: St, c: Byte)
    requires Context(s) && m.regs.state == Asked(s) && (Asked(s) == Pi(0) ==> m.regs.next == Back(s))
    requires m.ignore == 0 && m.extra == [] && NameStart(c) && Roomy(m, 1)
    ensures Trip(m, [c], m.(regs := m.regs.(state := if Asked(s) == Leq0 && c == 0x78 then XmlDecl(0) else Pi(1), next := Back(s)),
                            extra := [[c]]), [])
  {
    TargetStep(m, s, c);
    hide Step, Trip;
    One(m, c);
  }

  lemma TargetStep(m: Machine, s: St, c: Byte)
    requires Context(s) && m.regs.state == Asked(s) && (Asked(s) == Pi(0) ==> m.regs.next == Back(s))
    requires m.ignore == 0 && m.extra == [] && NameStart(c) && Roomy(m, 1)
    ensures Step(m, c) == Outcome(
      m.(regs := m.regs.(state := if Asked(s) == Leq0 && c == 0x78 then XmlDecl(0) else Pi(1), next := Back(s)), extra := [[c]]), Ok)
  {
    var r := m.regs.(state := if Asked(s) == Leq0 && c == 0x78 then XmlDecl(0) else Pi(1), next := Back(s));
    ByteClasses(c);
    if Asked(s) == Leq0 { MarkRow(m.regs, c); } else { PiRow(m.regs, c); }
    hide OnByte, Depth, NameStart, IsNameStart;
    StepIs(m, c, r, PushPi);
    SameDepth(m, m.(regs := r));
  }

  /** The state behind one more byte of a target that may still be "xml". */
  function Further(k: nat, c: Byte): St {
    if k == 0 && c == 0x6D then XmlDecl(1) else if k == 1 && c == 0x6C then XmlDecl(2) else Pi(1)
  }

  lemma TargetGoesOn(m: Machine, k: nat, name: Name, c: Byte)
    requires k < 3 && m.regs.state == XmlDecl(k) && m.extra == [name] && m.ignore == 0 && NameByte(c) && Roomy(m, 1)
    ensures Trip(m, [c], m.(regs := m.regs.(state := Further(k, c)), extra := [name + [c]]), [])
  {
    FurtherStep(m, k, name, c);
    hide Step, Trip;
    One(m, c);
  }

  lemma FurtherStep(m: Machine, k: nat, name: Name, c: Byte)
    requires k < 3 && m.regs.state == XmlDecl(k) && m.extra == [name] && m.ignore == 0 && NameByte(c) && Roomy(m, 1)
    ensures Step(m, c) == Outcome(m.(regs := m.regs.(state := Further(k, c)), extra := [name + [c]]), Ok)
  {
    var r := m.regs.(state := Further(k, c));
    ByteClasses(c);
    NameIsNoSpace(c);
    DeclarationRow(m.regs, c);
    hide OnByte, Depth, NameByte, IsName, IsSP;
    StepIs(m, c, r, GrowPi);
    SameDepth(m, m.(regs := r));
    Extras(m, c);
  }

  lemma NameIsNoSpace(c: Byte)
    requires NameByte(c)
    ensures !IsSP(c)
  {
  }

  /** A target has been read; it is not "xml". */
  ghost predicate HasTarget(m: Machine, name: Name, next: St, open: seq<Name>) {
    && (m.regs.state == Pi(1) || m.regs.state == XmlDecl(0) || m.regs.state == XmlDecl(1))
    && m.regs.next == next && m.ignore == 0 && m.extra == [name] && m.open == open && m.tag == []
  }

  lemma PlainTarget(m: Machine, name: Name, rest: seq<Byte>, next: St, open: seq<Name>) returns (m': Machine)
    requires HasTarget(m, name, next, open) && m.regs.state == Pi(1) && NameBytes(rest) && Roomy(m, |rest|)
    ensures Trip(m, rest, m', []) && HasTarget(m', name + rest, next, open) && m'.regs.state == Pi(1) && m'.room == m.room
  {
    m' := Longer(m, rest);
    NameIsRead(m, rest);
    hide Trip, Depth, NameBytes;
  }

  lemma TailOfNames(s: seq<Byte>)
    requires NameBytes(s) && s != []
    ensures NameByte(s[0]) && NameBytes(s[1..])
  {
  }

  /** A target that begins with x where the declaration might be. */
  lemma TargetFromX(m: Machine, k: nat, name: Name, rest: seq<Byte>, next: St, open: seq<Name>) returns (m': Machine)
    requires k < 3 && m.regs.state == XmlDecl(k) && m.regs.next == next && m.ignore == 0 && m.extra == [name] && m.open == open
    requires m.tag == [] && name == [0x78, 0x6D, 0x6C][..k + 1] && NameBytes(rest) && Roomy(m, |rest|)
    requires name + rest != [0x78, 0x6D, 0x6C]
    ensures Trip(m, rest, m', []) && HasTarget(m', name + rest, next, open) && m'.room == m.room
    decreases 3 - k
  {
    hide Trip, Depth, NameBytes, NameByte;
    if rest == [] {
      m' := m;
      Nowhere(m);
      NoSuffix(name);
    } else {
      var c, tail := rest[0], rest[1..];
      var m1 := m.(regs := m.regs.(state := Further(k, c)), extra := [name + [c]]);
      TailOfNames(rest);
      LessRoom(m, |rest|, 1);
      TargetGoesOn(m, k, name, c);
      RoomLeft(m, [c], m1, [], |tail|);
      assert [c] + tail == rest;
      Assoc(name, [c], tail);
      if Further(k, c) == Pi(1) {
        m' := PlainTarget(m1, name + [c], tail, next, open);
      } else {
        assert name + [c] == [0x78, 0x6D, 0x6C][..k + 2];
        m' := TargetFromX(m1, k + 1, name + [c], tail, next, open);
      }
      QuietFirst(m, [c], m1, tail, m', []);
    }
  }

  // ---------------------------------------------------------------- the end of the target

  lemma NameEnds(m: Machine, name: Name, next: St, open: seq<Name>, c: Byte)
    requires HasTarget(m, name, next, open) && !NamesXml(name) && (c == 0x3F || c == 0x20 || c == 0x09 || c == 0x0A)
    ensures Trip(m, [c], InState(m, if c == 0x3F then Pi(4) else Pi(2)), [Mark(PiStart, name)])
  {
    EndStep(m, name, next, open, c);
    hide Step, Trip;
    One(m, c);
  }

  lemma EndStep(m: Machine, name: Name, next: St, open: seq<Name>, c: Byte)
    requires HasTarget(m, name, next, open) && !NamesXml(name) && (c == 0x3F || c == 0x20 || c == 0x09 || c == 0x0A)
    ensures Step(m, c) == Outcome(InState(m, if c == 0x3F then Pi(4) else Pi(2)), PiStart)
  {
    var r := m.regs.(state := if c == 0x3F then Pi(4) else Pi(2));
    if m.regs.state == Pi(1) { PiRow(m.regs, c); } else { DeclarationRow(m.regs, c); }
    hide OnByte;
    StepIs(m, c, r, EndPiName);
  }

  lemma PiCloses(m: Machine)
    requires (m.regs.state == Pi(3) || m.regs.state == Pi(4)) && m.ignore == 0
    ensures Trip(m, [0x3E], m.(regs := m.regs.(state := m.regs.next), extra := []), [Mark(PiEnd, [])])
  {
    PiRow(m.regs, 0x3E);
    hide OnByte, Trip;
    StepIs(m, 0x3E, m.regs.(state := m.regs.next), PopPi);
    One(m, 0x3E);
  }

  // ---------------------------------------------------------------- the data

  function PiNext(k: nat, c: Byte): nat {
    if k == 0 && c == 0x3F then 1 else 0
  }

  function PiSays(k: nat, c: Byte): seq<Byte> {
    if k == 0 && c == 0x3F then [] else Held(0x3F, k) + [c]
  }

  lemma PiReacts(r: Regs, k: nat, c: Byte)
    requires k < 2 && r.state == Pi(2 + k) && !(k == 1 && c == 0x3E)
    ensures OnByte(r, c) == React(r.(state := Pi(2 + PiNext(k, c))), Give(if c == 0x3F && k == 0 then Ok else PiContent))
  {
    PiRow(r, c);
    hide OnByte;
  }

  lemma PiTold(m: Machine, k: nat, c: Byte)
    requires k < 2 && m.regs.state == Pi(2 + k) && Step(m, c).ret == PiContent && c != 13 && !(c == 0x3F && k == 0)
    ensures Told(m, c) == Data(PiContent, PiSays(k, c))
  {
    HeldIs(0x3F);
    NoPrefix([c]);
    assert [0x3F] + [c] == [0x3F, c];
    hide Step, Data, Held;
  }

  lemma PiKeeps(k: nat, c: Byte)
    requires k < 2
    ensures Held(0x3F, k) + [c] == PiSays(k, c) + Held(0x3F, PiNext(k, c))
  {
    HeldIs(0x3F);
    NoSuffix(Held(0x3F, k) + [c]);
    hide Held;
  }

  lemma PiByte(m: Machine, k: nat, c: Byte)
    requires k < 2 && m.regs.state == Pi(2 + k) && m.ignore == 0 && Clean(c) && !(k == 1 && c == 0x3E)
    ensures Trip(m, [c], InState(m, Pi(2 + PiNext(k, c))), Data(PiContent, PiSays(k, c)))
    ensures Held(0x3F, k) + [c] == PiSays(k, c) + Held(0x3F, PiNext(k, c))
  {
    PiKeeps(k, c);
    PiReacts(m.regs, k, c);
    hide OnByte, Trip, Data, Held, Step, Told;
    var r := m.regs.(state := Pi(2 + PiNext(k, c)));
    if c == 0x3F && k == 0 {
      Silent(m, c, r);
      EmptyData();
    } else {
      Gives(m, c, r, PiContent);
      PiTold(m, k, c);
    }
  }

  lemma PiParts(k: nat, s: seq<Byte>)
    requires k < 2 && Cleans(s) && s != [] && Never(Held(0x3F, k) + s, 0x3F, 0x3E)
    ensures Clean(s[0]) && Cleans(s[1..]) && !(k == 1 && s[0] == 0x3E) && PiNext(k, s[0]) < 2
  {
    HeldIs(0x3F);
    if k == 1 {
      var t := Held(0x3F, 1) + s;
      assert t[0] == 0x3F && t[1] == s[0];
    }
  }

  lemma PiSuffix(k: nat, s: seq<Byte>)
    requires k < 2 && s != [] && Never(Held(0x3F, k) + s, 0x3F, 0x3E)
    requires Held(0x3F, k) + [s[0]] == PiSays(k, s[0]) + Held(0x3F, PiNext(k, s[0]))
    ensures Never(Held(0x3F, PiNext(k, s[0])) + s[1..], 0x3F, 0x3E)
    ensures Held(0x3F, k) + s == PiSays(k, s[0]) + (Held(0x3F, PiNext(k, s[0])) + s[1..])
  {
    var whole := Held(0x3F, k) + s;
    var out, part := PiSays(k, s[0]), Held(0x3F, PiNext(k, s[0])) + s[1..];
    assert whole == Held(0x3F, k) + [s[0]] + s[1..];
    assert whole == out + part;
    hide Held, PiSays, PiNext;
    forall i | 0 <= i < |part| - 1
      ensures !(part[i] == 0x3F && part[i + 1] == 0x3E)
    {
      assert whole[|out| + i] == part[i] && whole[|out| + i + 1] == part[i + 1];
    }
  }

  lemma ParityStays(k: nat, c: Byte, rest: seq<Byte>)
    requires k < 2
    ensures Questions(PiSays(k, c) + rest) % 2 == Questions(rest) % 2
  {
    HeldIs(0x3F);
    QuestionsBehind(PiSays(k, c), rest);
    SaidIsEven(k, c);
    hide Questions, PiSays, Held;
  }

  lemma SaidIsEven(k: nat, c: Byte)
    requires k < 2
    ensures Questions(PiSays(k, c)) % 2 == 0
  {
    HeldIs(0x3F);
    if k == 0 && c != 0x3F { assert [] + [c] == [c]; }
    if k == 1 {
      var two := [0x3F] + [c];
      assert two[..1] == [0x3F] && [0x3F][..0] == [];
      assert Questions([0x3F]) == 1 + Questions([]);
    }
  }

  /** After the data one question mark is held back exactly if their number at the end is odd. */
  lemma {:induction false} PiBody(m: Machine, k: nat, s: seq<Byte>) returns (j: nat, said: seq<Byte>)
    requires k < 2 && m.regs.state == Pi(2 + k) && m.ignore == 0 && Cleans(s) && Never(Held(0x3F, k) + s, 0x3F, 0x3E)
    ensures j < 2 && Trip(m, s, InState(m, Pi(2 + j)), Data(PiContent, said)) && Held(0x3F, k) + s == said + Held(0x3F, j)
    ensures j == Questions(Held(0x3F, k) + s) % 2
    decreases |s|
  {
    hide *;
    if s == [] {
      j, said := k, [];
      SameState(m);
      Nowhere(m);
      EmptyData();
      NoPrefix(Held(0x3F, k));
      NoSuffix(Held(0x3F, k));
      HeldQuestions(k);
    } else {
      var c, rest := s[0], s[1..];
      PiParts(k, s);
      PiByte(m, k, c);
      var i := PiNext(k, c);
      var m1 := InState(m, Pi(2 + i));
      StateIs(m, Pi(2 + i));
      PiSuffix(k, s);
      ParityStays(k, c, Held(0x3F, i) + rest);
      var said1;
      j, said1 := PiBody(m1, i, rest);
      said := PiSays(k, c) + said1;
      StateTwice(m, Pi(2 + i), Pi(2 + j));
      Join(m, [c], m1, Data(PiContent, PiSays(k, c)), rest, InState(m, Pi(2 + j)), Data(PiContent, said1));
      DataConcat(PiContent, PiSays(k, c), said1);
      assert [c] + rest == s;
      Regroup(Held(0x3F, k), c, rest, PiSays(k, c), Held(0x3F, i), said1, Held(0x3F, j));
    }
  }

  lemma HeldQuestions(k: nat)
    requires k < 2
    ensures Questions(Held(0x3F, k)) % 2 == k
  {
    HeldIs(0x3F);
    if k == 1 { assert [0x3F][..0] == []; }
  }

  // ---------------------------------------------------------------- closed or not

  /** What "?>" makes of an instruction in whose data it is read: with an even number of question marks before it the
      instruction ends; with an odd number it goes on. The standard (production 16 of XML 1.0) ends it in both cases. */
  lemma EndsIffEven(m: Machine, s: seq<Byte>) returns (m': Machine, said: seq<Report>)
    requires m.regs.state == Pi(2) && m.ignore == 0 && Cleans(s) && Never(s, 0x3F, 0x3E) && m.regs.next != Pi(2)
    ensures Trip(m, s + [0x3F, 0x3E], m', said)
    ensures m'.regs.state == m.regs.next <==> Questions(s) % 2 == 0
    ensures Questions(s) % 2 == 0 ==>
      m' == m.(regs := m.regs.(state := m.regs.next), extra := []) && said == Data(PiContent, s) + [Mark(PiEnd, [])]
    ensures Questions(s) % 2 == 1 ==> m' == m && said == Data(PiContent, s + [0x3F, 0x3E])
  {
    hide *;
    HeldIs(0x3F);
    NoPrefix(s);
    var j, text := PiBody(m, 0, s);
    var m1 := InState(m, Pi(2 + j));
    StateIs(m, Pi(2 + j));
    NoSuffix(text);
    EvenIsPairs(s);
    if j == 0 {
      m', said := Even(m, s);
    } else {
      m' := m;
      said := Data(PiContent, s + [0x3F, 0x3E]);
      Odd(m1);
      StateTwice(m, Pi(3), Pi(2));
      SameState(m);
      Join(m, s, m1, Data(PiContent, text), [0x3F, 0x3E], m, Data(PiContent, [0x3F, 0x3F, 0x3E]));
      DataConcat(PiContent, text, [0x3F, 0x3F, 0x3E]);
      assert s + [0x3F, 0x3E] == text + [0x3F, 0x3F, 0x3E];
    }
  }

  lemma Odd(m: Machine)
    requires m.regs.state == Pi(3) && m.ignore == 0
    ensures Trip(m, [0x3F, 0x3E], InState(m, Pi(2)), Data(PiContent, [0x3F, 0x3F, 0x3E]))
  {
    hide *;
    var m1 := InState(m, Pi(2));
    OddBytes(m);
    Join(m, [0x3F], m1, Data(PiContent, [0x3F, 0x3F]), [0x3E], m1, Data(PiContent, [0x3E]));
    DataConcat(PiContent, [0x3F, 0x3F], [0x3E]);
    assert [0x3F] + [0x3E] == [0x3F, 0x3E] && [0x3F, 0x3F] + [0x3E] == [0x3F, 0x3F, 0x3E];
  }

  lemma OddBytes(m: Machine)
    requires m.regs.state == Pi(3) && m.ignore == 0
    ensures Trip(m, [0x3F], InState(m, Pi(2)), Data(PiContent, [0x3F, 0x3F]))
    ensures Trip(InState(m, Pi(2)), [0x3E], InState(m, Pi(2)), Data(PiContent, [0x3E]))
  {
    hide *;
    MarksAre();
    StateIs(m, Pi(2));
    StateTwice(m, Pi(2), Pi(2));
    PiByte(m, 1, 0x3F);
    PiByte(InState(m, Pi(2)), 0, 0x3E);
  }

  lemma MarksAre()
    ensures PiNext(1, 0x3F) == 0 && PiNext(0, 0x3E) == 0 && Clean(0x3F) && Clean(0x3E)
    ensures PiSays(1, 0x3F) == [0x3F, 0x3F] && PiSays(0, 0x3E) == [0x3E]
  {
    HeldIs(0x3F);
    NoPrefix([0x3E]);
  }

  /** Data of pairs are reported as they are. */
  lemma {:induction false} PairsAreRead(m: Machine, s: seq<Byte>)
    requires m.regs.state == Pi(2) && m.ignore == 0 && Cleans(s) && Pairs(s)
    ensures Trip(m, s, m, Data(PiContent, s))
    decreases |s|
  {
    hide *;
    PairsParts(s);
    if s == [] {
      Nowhere(m);
      EmptyData();
    } else {
      var k := if s[0] == 0x3F then 2 else 1;
      OnePair(m, s[..k]);
      PairsAreRead(m, s[k..]);
      assert s[..k] + s[k..] == s;
      DataConcat(PiContent, s[..k], s[k..]);
      Join(m, s[..k], m, Data(PiContent, s[..k]), s[k..], m, Data(PiContent, s[k..]));
    }
  }

  lemma PairsParts(s: seq<Byte>)
    requires Cleans(s) && Pairs(s)
    ensures s != [] && s[0] != 0x3F ==> Clean(s[0]) && s[..1] == [s[0]] && Cleans(s[1..]) && Pairs(s[1..])
    ensures s != [] && s[0] == 0x3F ==>
      |s| > 1 && Clean(s[1]) && s[1] != 0x3E && s[..2] == [0x3F, s[1]] && Cleans(s[2..]) && Pairs(s[2..])
  {
  }

  lemma OnePair(m: Machine, s: seq<Byte>)
    requires m.regs.state == Pi(2) && m.ignore == 0
    requires (|s| == 1 && s[0] != 0x3F && Clean(s[0])) || (|s| == 2 && s[0] == 0x3F && Clean(s[1]) && s[1] != 0x3E)
    ensures Trip(m, s, m, Data(PiContent, s))
  {
    hide *;
    MarksAre();
    PairSays(s);
    SameState(m);
    if |s| == 1 {
      PiByte(m, 0, s[0]);
      assert [s[0]] == s;
    } else {
      var m1 := InState(m, Pi(3));
      PiByte(m, 0, 0x3F);
      EmptyData();
      StateIs(m, Pi(3));
      PiByte(m1, 1, s[1]);
      StateTwice(m, Pi(3), Pi(2));
      QuietFirst(m, [0x3F], m1, [s[1]], m, Data(PiContent, s));
      assert [0x3F] + [s[1]] == s;
    }
  }

  lemma PairSays(s: seq<Byte>)
    ensures |s| == 1 && s[0] != 0x3F ==> PiNext(0, s[0]) == 0 && PiSays(0, s[0]) == s
    ensures |s| == 2 && s[0] == 0x3F ==> PiNext(1, s[1]) == 0 && PiSays(1, s[1]) == s
    ensures PiNext(0, 0x3F) == 1 && PiSays(0, 0x3F) == []
  {
    HeldIs(0x3F);
    if |s| == 1 { NoPrefix(s); }
  }

  lemma Even(m: Machine, s: seq<Byte>) returns (m': Machine, said: seq<Report>)
    requires m.regs.state == Pi(2) && m.ignore == 0 && Cleans(s) && Pairs(s)
    ensures m' == m.(regs := m.regs.(state := m.regs.next), extra := []) && said == Data(PiContent, s) + [Mark(PiEnd, [])]
    ensures Trip(m, s + [0x3F, 0x3E], m', said)
  {
    hide *;
    PairsAreRead(m, s);
    var m1 := InState(m, Pi(3));
    m' := m.(regs := m.regs.(state := m.regs.next), extra := []);
    said := Data(PiContent, s) + [Mark(PiEnd, [])];
    LastQuestion(m);
    QuietFirst(m, [0x3F], m1, [0x3E], m', [Mark(PiEnd, [])]);
    Join(m, s, m, Data(PiContent, s), [0x3F] + [0x3E], m', [Mark(PiEnd, [])]);
    assert [0x3F] + [0x3E] == [0x3F, 0x3E];
  }

  lemma LastQuestion(m: Machine)
    requires m.regs.state == Pi(2) && m.ignore == 0
    ensures Trip(m, [0x3F], InState(m, Pi(3)), [])
    ensures Trip(InState(m, Pi(3)), [0x3E], m.(regs := m.regs.(state := m.regs.next), extra := []), [Mark(PiEnd, [])])
  {
    HeldIs(0x3F);
    EmptyData();
    PiByte(m, 0, 0x3F);
    PiCloses(InState(m, Pi(3)));
    hide Trip, Data, Held;
  }

  // ---------------------------------------------------------------- a whole instruction

  /** The machine behind "<?". */
  function Target(m: Machine): Machine {
    var s := m.regs.state;
    m.(regs := m.regs.(state := Asked(s), next := if Asked(s) == Leq0 then m.regs.next else Back(s)))
  }

  lemma Introduced(m: Machine)
    requires Context(m.regs.state) && m.ignore == 0
    ensures Trip(m, [0x3C, 0x3F], Target(m), [])
    ensures Target(m).regs.state == Asked(m.regs.state) && Target(m) == m.(regs := Target(m).regs)
    ensures Asked(m.regs.state) == Pi(0) ==> Target(m).regs.next == Back(m.regs.state)
    ensures Asked(m.regs.state) == Pi(0) || Asked(m.regs.state) == Leq0
  {
    var s := m.regs.state;
    var m1 := InState(m, Angle(s));
    AngleOpens(m);
    Asks(m1, s);
    hide Trip, Context, Angle;
    assert [0x3C] + [0x3F] == [0x3C, 0x3F];
    QuietFirst(m, [0x3C], m1, [0x3F], Target(m), []);
  }

  lemma FirstOfTarget(target: Name)
    requires IsNameOf(target)
    ensures target != [] && NameStart(target[0]) && NameBytes(target[1..]) && [target[0]] + target[1..] == target
  {
  }

  lemma HasFirst(m: Machine, name: Name, next: St, open: seq<Name>)
    requires m.regs.state == Pi(1) && m.regs.next == next && m.ignore == 0 && m.extra == [name] && m.open == open && m.tag == []
    ensures HasTarget(m, name, next, open)
  {
  }

  lemma AtFields(m: Machine, s: St, open: seq<Name>)
    requires At(m, s, open)
    ensures m.regs.state == s && m.ignore == 0 && m.open == open && m.extra == [] && m.tag == []
  {
  }

  lemma TargetIsRead(m: Machine, target: Name, open: seq<Name>) returns (m': Machine)
    requires Context(m.regs.state) && At(m, m.regs.state, open) && IsNameOf(target) && Roomy(m, |target| + 2)
    requires target == [0x78, 0x6D, 0x6C] ==> Asked(m.regs.state) != Leq0
    ensures Trip(m, [0x3C, 0x3F] + target, m', []) && HasTarget(m', target, Back(m.regs.state), open) && m'.room == m.room
  {
    hide *;
    var s := m.regs.state;
    AtFields(m, s, open);
    Introduced(m);
    var m2 := Target(m);
    FirstOfTarget(target);
    var first, rest := target[0], target[1..];
    var x := Asked(s) == Leq0 && first == 0x78;
    var m3 := m2.(regs := m2.regs.(state := if x then XmlDecl(0) else Pi(1), next := Back(s)), extra := [[first]]);
    RoomLeft(m, [0x3C, 0x3F], m2, [], |target|);
    LessRoom(m2, |target|, 1);
    TargetStarts(m2, s, first);
    RoomLeft(m2, [first], m3, [], |rest|);
    if x {
      XmlBegins(target);
      m' := TargetFromX(m3, 0, [first], rest, Back(s), open);
    } else {
      HasFirst(m3, [first], Back(s), open);
      m' := PlainTarget(m3, [first], rest, Back(s), open);
    }
    QuietFirst(m2, [first], m3, rest, m', []);
    QuietFirst(m, [0x3C, 0x3F], m2, target, m', []);
  }

  lemma XmlBegins(target: Name)
    requires target != []
    ensures target[0] == 0x78 ==> [target[0]] == [0x78, 0x6D, 0x6C][..1]
  {
  }

  lemma XmlIsNot(target: Name)
    requires !NamesXml(target)
    ensures target != [0x78, 0x6D, 0x6C]
  {
  }

  lemma {:induction false} InstructionIsRead(m: Machine, pi: Instruction, open: seq<Name>) returns (m': Machine)
    requires Context(m.regs.state) && At(m, m.regs.state, open) && TakenInstruction(pi)
    requires Roomy(m, |WriteInstruction(pi)|)
    ensures Trip(m, WriteInstruction(pi), m', InstructionReports(pi)) && At(m', Back(m.regs.state), open) && m'.room == m.room
  {
    hide *;
    var next := Back(m.regs.state);
    InstructionParts(pi);
    InstructionText(pi);
    XmlIsNot(pi.target);
    LessRoom(m, |WriteInstruction(pi)|, |pi.target| + 2);
    var m1 := TargetIsRead(m, pi.target, open);
    var told;
    m', told := RestIsRead(m1, pi, next, open);
    QuietFirst(m, [0x3C, 0x3F] + pi.target, m1, pi.separator + (pi.data + [0x3F, 0x3E]), m', told);
    Assoc([0x3C, 0x3F], pi.target, pi.separator + (pi.data + [0x3F, 0x3E]));
  }

  lemma InstructionParts(pi: Instruction)
    requires TakenInstruction(pi)
    ensures IsNameOf(pi.target) && !NamesXml(pi.target)
    ensures Cleans(pi.data) && Pairs(pi.data)
    ensures pi.separator == [] ==> pi.data == []
    ensures pi.separator != [] ==> |pi.separator| == 1 && Blanks(pi.separator)
  {
    hide IsNameOf, NamesXml, Cleans, Pairs, Blanks;
  }

  lemma InstructionText(pi: Instruction)
    ensures WriteInstruction(pi) == [0x3C, 0x3F] + (pi.target + (pi.separator + (pi.data + [0x3F, 0x3E])))
    ensures |WriteInstruction(pi)| >= |pi.target| + 2
    ensures InstructionReports(pi) == [Mark(PiStart, pi.target)] + (Data(PiContent, pi.data) + [Mark(PiEnd, [])])
  {
    hide Data;
  }

  lemma RestIsRead(m: Machine, pi: Instruction, next: St, open: seq<Name>) returns (m': Machine, told: seq<Report>)
    requires HasTarget(m, pi.target, next, open) && TakenInstruction(pi)
    ensures Trip(m, pi.separator + (pi.data + [0x3F, 0x3E]), m', told) && told == InstructionReports(pi)
    ensures At(m', next, open) && m'.room == m.room
  {
    hide *;
    InstructionParts(pi);
    InstructionText(pi);
    if pi.separator == [] {
      var m1 := InState(m, Pi(4));
      NameEnds(m, pi.target, next, open, 0x3F);
      StateIs(m, Pi(4));
      TargetFields(m, pi.target, next, open);
      PiCloses(m1);
      m' := m1.(regs := m1.regs.(state := m1.regs.next), extra := []);
      told := [Mark(PiStart, pi.target)] + [Mark(PiEnd, [])];
      Join(m, [0x3F], m1, [Mark(PiStart, pi.target)], [0x3E], m', [Mark(PiEnd, [])]);
      assert [0x3F] + [0x3E] == [0x3F, 0x3E];
      NoPrefix([0x3F, 0x3E]);
      EmptyData();
      NoPrefix([Mark(PiEnd, [])]);
      ClosedAt(m', next, open);
    } else {
      var c := pi.separator[0];
      BlankByte(pi.separator);
      var m1 := InState(m, Pi(2));
      NameEnds(m, pi.target, next, open, c);
      StateIs(m, Pi(2));
      TargetFields(m, pi.target, next, open);
      var said;
      m', said := Even(m1, pi.data);
      told := [Mark(PiStart, pi.target)] + said;
      assert [c] == pi.separator;
      Join(m, [c], m1, [Mark(PiStart, pi.target)], pi.data + [0x3F, 0x3E], m', said);
      ClosedAt(m', next, open);
    }
  }

  lemma BlankByte(s: seq<Byte>)
    requires |s| == 1 && Blanks(s)
    ensures s[0] == 0x20 || s[0] == 0x09 || s[0] == 0x0A
  {
  }

  lemma TargetFields(m: Machine, name: Name, next: St, open: seq<Name>)
    requires HasTarget(m, name, next, open)
    ensures m.regs.next == next && m.ignore == 0 && m.open == open && m.tag == []
  {
  }

  lemma ClosedAt(m: Machine, s: St, open: seq<Name>)
    requires m.regs.state == s && m.ignore == 0 && m.open == open && m.extra == [] && m.tag == []
    ensures At(m, s, open)
  {
  }
}
