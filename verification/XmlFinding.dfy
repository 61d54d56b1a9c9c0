// From a text that the XML parser takes to the end, back to the parts it is made of.
module XmlFinding {
  import opened Bytes
  import opened Sequences
  import opened XmlStates
  import opened XmlAutomaton
  import opened XmlDocuments
  import opened XmlTaken
  import opened XmlSteps
  import opened XmlRuns
  import opened XmlMarkup
  import opened XmlInstructions
  import opened XmlElements
  import opened XmlProlog
  import opened XmlDeclaration
  import opened XmlShortfalls

  // ---------------------------------------------------------------- texts that lead to the end

  /** The rest of a text: it leads to the end of a document, and there is room for it. */
  ghost predicate Left(m: Machine, t: seq<Byte>) {
    Go(m, t).ok && Go(m, t).m.regs.state == Misc(3) && Cleans(t) && Roomy(m, |t|) && m.ignore == 0
  }

  lemma CleansParts(a: seq<Byte>, b: seq<Byte>)
    requires Cleans(a + b)
    ensures Cleans(a) && Cleans(b)
  {
    forall i | 0 <= i < |a| ensures Clean(a[i]) { assert (a + b)[i] == a[i]; }
    forall i | 0 <= i < |b| ensures Clean(b[i]) { assert (a + b)[|a| + i] == b[i]; }
  }

  lemma LeftAfter(m: Machine, a: seq<Byte>, m1: Machine, out: seq<Report>, b: seq<Byte>)
    requires Left(m, a + b) && Trip(m, a, m1, out) && m1.ignore == 0
    ensures Left(m1, b) && m1.room == m.room
  {
    GoSplits(m, a, b);
    CleansParts(a, b);
    RoomLeft(m, a, m1, out, |b|);
    hide Go, Roomy, Cleans;
  }

  /** What the next byte has to be for. */
  lemma MustGo(m: Machine, t: seq<Byte>)
    requires Left(m, t) && (m.regs.state == Misc(3) ==> t != [])
    ensures t != [] && Clean(t[0]) && t[0] != NUL && t[0] != 13 && Plainly(m, t[0])
    ensures OnByte(m.regs, t[0]).React? && !Negative(Step(m, t[0]).ret)
  {
    hide Perform, OnByte, Depth;
  }

  lemma Half(t: seq<Byte>, k: nat)
    requires k <= |t|
    ensures t == t[..k] + t[k..]
  {
  }

  lemma FirstAndRest(t: seq<Byte>)
    requires t != []
    ensures t == [t[0]] + t[1..]
  {
  }

  lemma TwoAndRest(t: seq<Byte>)
    requires |t| > 1
    ensures t == [t[0], t[1]] + t[2..] && t[1..] == [t[1]] + t[2..]
  {
  }

  lemma RoomOf(m: Machine, t: seq<Byte>, k: nat)
    requires Left(m, t) && k <= |t|
    ensures Roomy(m, k) && m.ignore == 0 && Cleans(t)
  {
    LessRoom(m, |t|, k);
    hide Go, Roomy, Cleans;
  }

  // ---------------------------------------------------------------- runs of bytes

  lemma {:induction false} FindBlanks(t: seq<Byte>) returns (w: seq<Byte>, rest: seq<Byte>)
    ensures t == w + rest && Blanks(w) && (rest != [] ==> !IsSP(rest[0]))
    decreases |t|
  {
    if t == [] || !IsSP(t[0]) {
      w, rest := [], t;
    } else {
      w, rest := FindBlanks(t[1..]);
      w := [t[0]] + w;
      assert t == [t[0]] + t[1..];
    }
  }

  lemma {:induction false} FindName(t: seq<Byte>) returns (s: seq<Byte>, rest: seq<Byte>)
    ensures t == s + rest && NameBytes(s) && (rest != [] ==> !NameByte(rest[0]))
    decreases |t|
  {
    hide NameByte;
    if t == [] || !NameByte(t[0]) {
      s, rest := [], t;
    } else {
      s, rest := FindName(t[1..]);
      s := [t[0]] + s;
      assert t == [t[0]] + t[1..];
    }
  }

  lemma NameIs(c: Byte)
    ensures NameByte(c) <==> IsName(c)
    ensures NameStart(c) <==> IsNameStart(c)
    ensures IsName(c) ==> !IsSP(c) && c != 0x2F && c != 0x3E && c != 0x3F && c != 0x3D
    ensures IsNameStart(c) ==> IsName(c)
  {
  }

  lemma NameFrom(c: Byte, s: seq<Byte>)
    requires NameStart(c) && NameBytes(s)
    ensures IsNameOf([c] + s)
  {
    assert ([c] + s)[1..] == s;
  }

  lemma {:induction false} FindTwo(t: seq<Byte>, a: Byte, b: Byte) returns (found: bool, i: nat)
    ensures found ==> i + 1 < |t| && t[i] == a && t[i + 1] == b && Never(t[..i + 1], a, b)
    ensures !found ==> Never(t, a, b)
    decreases |t|
  {
    if |t| < 2 {
      found, i := false, 0;
    } else if t[0] == a && t[1] == b {
      found, i := true, 0;
    } else {
      found, i := FindTwo(t[1..], a, b);
      if found {
        assert t[1..][..i + 1] == t[..i + 2][1..];
        NeverLonger(t[..i + 2], a, b);
        i := i + 1;
      } else {
        NeverLonger(t, a, b);
      }
    }
  }

  lemma NeverLonger(t: seq<Byte>, a: Byte, b: Byte)
    requires |t| > 1 && !(t[0] == a && t[1] == b) && Never(t[1..], a, b)
    ensures Never(t, a, b)
  {
    forall i | 0 <= i < |t| - 1
      ensures !(t[i] == a && t[i + 1] == b)
    {
      if i > 0 { assert t[1..][i - 1] == t[i] && t[1..][i] == t[i + 1]; }
    }
  }

  lemma {:induction false} FindThree(t: seq<Byte>, a: Byte, b: Byte, c: Byte) returns (found: bool, i: nat)
    ensures found ==> i + 2 < |t| && t[i] == a && t[i + 1] == b && t[i + 2] == c && NeverThree(t[..i], a, b, c)
    ensures !found ==> NeverThree(t, a, b, c)
    decreases |t|
  {
    if |t| < 3 {
      found, i := false, 0;
    } else if t[0] == a && t[1] == b && t[2] == c {
      found, i := true, 0;
    } else {
      found, i := FindThree(t[1..], a, b, c);
      if found {
        assert t[1..][..i] == t[..i + 1][1..];
        if i + 1 > 2 { NeverThreeLonger(t[..i + 1], a, b, c); }
        i := i + 1;
      } else {
        NeverThreeLonger(t, a, b, c);
      }
    }
  }

  lemma NeverThreeLonger(t: seq<Byte>, a: Byte, b: Byte, c: Byte)
    requires |t| > 2 && !(t[0] == a && t[1] == b && t[2] == c) && NeverThree(t[1..], a, b, c)
    ensures NeverThree(t, a, b, c)
  {
    forall i | 0 <= i < |t| - 2
      ensures !(t[i] == a && t[i + 1] == b && t[i + 2] == c)
    {
      if i > 0 { assert t[1..][i - 1] == t[i] && t[1..][i] == t[i + 1] && t[1..][i + 1] == t[i + 2]; }
    }
  }

  lemma {:induction false} FindByte(t: seq<Byte>, b: Byte) returns (found: bool, i: nat)
    ensures found ==> i < |t| && t[i] == b && b !in t[..i]
    ensures !found ==> b !in t
    decreases |t|
  {
    if t == [] {
      found, i := false, 0;
    } else if t[0] == b {
      found, i := true, 0;
    } else {
      found, i := FindByte(t[1..], b);
      if found {
        assert t[..i + 1] == [t[0]] + t[1..][..i];
        i := i + 1;
      } else {
        assert t == [t[0]] + t[1..];
      }
    }
  }

  /** A fixed string that is expected has to come. */
  lemma {:induction false} FindWord(m: Machine, t: seq<Byte>) returns (rest: seq<Byte>)
    requires m.regs.state == StString && m.regs.literal != [] && NUL !in m.regs.literal && 13 !in m.regs.literal
    requires Left(m, t)
    ensures t == m.regs.literal + rest
    decreases |m.regs.literal|
  {
    hide *;
    var s := m.regs.literal;
    MustGo(m, t);
    LiteralReacts(m.regs, t[0]);
    FirstAndRest(t);
    FirstAndRest(s);
    if s[1..] == [] {
      rest := t[1..];
      NoSuffix([s[0]]);
    } else {
      var m1 := m.(regs := m.regs.(literal := s[1..]));
      StringReacts(m.regs);
      Silent(m, t[0], m1.regs);
      RoomOf(m, t, 0);
      LeftAfter(m, [t[0]], m1, [], t[1..]);
      InTail(s);
      rest := FindWord(m1, t[1..]);
      Assoc([s[0]], s[1..], rest);
    }
  }

  lemma InTail(s: seq<Byte>)
    requires s != [] && NUL !in s && 13 !in s
    ensures NUL !in s[1..] && 13 !in s[1..]
  {
  }

  lemma LiteralReacts(r: Regs, c: Byte)
    requires r.state == StString && OnByte(r, c).React?
    ensures r.literal != [] && c == r.literal[0]
  {
    StringRow(r, c);
    hide OnByte;
  }

  // ---------------------------------------------------------------- comments

  lemma CommentReacts(r: Regs, c: Byte)
    requires r.state.Comment? && OnByte(r, c).React?
    ensures r.state == St.Comment(4) ==> c == 0x3E
    ensures r.state == St.Comment(0) || r.state == St.Comment(1) ==> c == 0x2D
  {
    CommentRow(r, c);
    hide OnByte;
  }

  lemma NotAtEnd(m: Machine)
    requires m.regs.state != Misc(3)
    ensures !Left(m, [])
  {
  }

  lemma DashStep(m: Machine, n: nat)
    requires (m.regs.state == St.Comment(2) && n == 3) || (m.regs.state == St.Comment(3) && n == 4)
    requires m.ignore == 0
    ensures Trip(m, [0x2D], InState(m, St.Comment(n)), [])
  {
    CommentStep(m, 0x2D, n);
  }

  lemma FrontOfComment(t: seq<Byte>, i: nat)
    requires i + 1 < |t| && t[i] == 0x2D && t[i + 1] == 0x2D && Never(t[..i + 1], 0x2D, 0x2D) && Cleans(t)
    ensures TakenComment(t[..i]) && t == t[..i] + ([0x2D] + ([0x2D] + t[i + 2..]))
  {
    if i > 0 { assert t[..i + 1][i - 1] == t[i - 1] && t[..i + 1][i] == t[i]; }
    forall j | 0 <= j < |t[..i]| - 1
      ensures !(t[..i][j] == 0x2D && t[..i][j + 1] == 0x2D)
    {
      assert t[..i + 1][j] == t[..i][j] && t[..i + 1][j + 1] == t[..i][j + 1];
    }
  }

  /** A comment without an end. */
  lemma EndlessComment(m: Machine, t: seq<Byte>)
    requires m.regs.state == St.Comment(2) && Never(t, 0x2D, 0x2D)
    ensures !Left(m, t)
  {
    hide *;
    if Left(m, t) {
      RoomOf(m, t, 0);
      if t != [] && t[|t| - 1] == 0x2D {
        var s := t[..|t| - 1];
        DashAtEnd(t);
        CommentBody(m, s);
        LeftAfter(m, s, m, [], [0x2D]);
        DashStep(m, 3);
        var m1 := InState(m, St.Comment(3));
        StateIs(m, St.Comment(3));
        NoSuffix([0x2D]);
        LeftAfter(m, [0x2D], m1, [], []);
        NotAtEnd(m1);
        assert false;
      } else {
        NoDashAtEnd(t);
        CommentBody(m, t);
        NoSuffix(t);
        LeftAfter(m, t, m, [], []);
        NotAtEnd(m);
        assert false;
      }
    }
  }

  lemma DashAtEnd(t: seq<Byte>)
    requires t != [] && t[|t| - 1] == 0x2D && Never(t, 0x2D, 0x2D) && Cleans(t)
    ensures TakenComment(t[..|t| - 1]) && t == t[..|t| - 1] + [0x2D]
  {
    var s := t[..|t| - 1];
    if s != [] { assert t[|s| - 1] == s[|s| - 1] && t[|s|] == 0x2D; }
    forall j | 0 <= j < |s| - 1
      ensures !(s[j] == 0x2D && s[j + 1] == 0x2D)
    {
      assert t[j] == s[j] && t[j + 1] == s[j + 1];
    }
  }

  lemma NoDashAtEnd(t: seq<Byte>)
    requires t == [] || t[|t| - 1] != 0x2D
    requires Never(t, 0x2D, 0x2D) && Cleans(t)
    ensures TakenComment(t)
  {
  }

  lemma FindComment(m: Machine, t: seq<Byte>) returns (s: seq<Byte>, rest: seq<Byte>)
    requires m.regs.state == St.Comment(2) && Left(m, t)
    ensures t == s + ([0x2D, 0x2D, 0x3E] + rest) && TakenComment(s)
  {
    hide *;
    RoomOf(m, t, 0);
    var found, i := FindTwo(t, 0x2D, 0x2D);
    if !found {
      EndlessComment(m, t);
      assert false;
    } else {
      s := t[..i];
      FrontOfComment(t, i);
      CommentBody(m, s);
      LeftAfter(m, s, m, [], [0x2D] + ([0x2D] + t[i + 2..]));
      DashStep(m, 3);
      var m1 := InState(m, St.Comment(3));
      StateIs(m, St.Comment(3));
      LeftAfter(m, [0x2D], m1, [], [0x2D] + t[i + 2..]);
      DashStep(m1, 4);
      var m2 := InState(m1, St.Comment(4));
      StateIs(m1, St.Comment(4));
      LeftAfter(m1, [0x2D], m2, [], t[i + 2..]);
      MustGo(m2, t[i + 2..]);
      CommentReacts(m2.regs, t[i + 2..][0]);
      rest := t[i + 3..];
      assert t[i + 2..] == [0x3E] + rest;
      assert [0x2D] + ([0x2D] + ([0x3E] + rest)) == [0x2D, 0x2D, 0x3E] + rest;
    }
  }

  // ---------------------------------------------------------------- CDATA sections

  lemma FindCData(m: Machine, t: seq<Byte>) returns (s: seq<Byte>, rest: seq<Byte>)
    requires m.regs.state == Cd(0) && Left(m, t)
    ensures t == s + ([0x5D, 0x5D, 0x3E] + rest) && TakenCData(s)
  {
    hide *;
    RoomOf(m, t, 0);
    var found, i := FindThree(t, 0x5D, 0x5D, 0x3E);
    if !found {
      HeldIs(0x5D);
      NoPrefix(t);
      var j, said := CdataBody(m, 0, t);
      var m1 := InState(m, Cd(j));
      StateIs(m, Cd(j));
      NoSuffix(t);
      LeftAfter(m, t, m1, Data(Content, said), []);
      NotAtEnd(m1);
      assert false;
    } else {
      s, rest := t[..i], t[i + 3..];
      assert t == s + ([0x5D, 0x5D, 0x3E] + rest);
      CleansParts(s, [0x5D, 0x5D, 0x3E] + rest);
      IsCData(s);
    }
  }

  lemma IsCData(s: seq<Byte>)
    requires Cleans(s) && NeverThree(s, 0x5D, 0x5D, 0x3E)
    ensures TakenCData(s)
  {
  }

  // ---------------------------------------------------------------- instructions

  lemma PairsLonger(a: seq<Byte>, s: seq<Byte>)
    requires Cleans(s) && Pairs(s)
    requires (|a| == 1 && a[0] != 0x3F && Clean(a[0])) || (|a| == 2 && a[0] == 0x3F && Clean(a[1]) && a[1] != 0x3E)
    ensures Cleans(a + s) && Pairs(a + s)
  {
    assert (a + s)[|a|..] == s;
  }

  lemma {:induction false} FindPairs(m: Machine, t: seq<Byte>) returns (s: seq<Byte>, rest: seq<Byte>)
    requires m.regs.state == Pi(2) && Left(m, t)
    ensures t == s + ([0x3F, 0x3E] + rest) && Cleans(s) && Pairs(s)
    decreases |t|
  {
    hide *;
    RoomOf(m, t, 0);
    MustGo(m, t);
    FirstAndRest(t);
    if t[0] != 0x3F {
      OnePair(m, [t[0]]);
      LeftAfter(m, [t[0]], m, Data(PiContent, [t[0]]), t[1..]);
      s, rest := FindPairs(m, t[1..]);
      PairsLonger([t[0]], s);
      Assoc([t[0]], s, [0x3F, 0x3E] + rest);
      s := [t[0]] + s;
    } else {
      var m1 := InState(m, Pi(3));
      LastQuestion(m);
      StateIs(m, Pi(3));
      LeftAfter(m, [0x3F], m1, [], t[1..]);
      MustGo(m1, t[1..]);
      TwoAndRest(t);
      if t[1] == 0x3E {
        s, rest := [], t[2..];
        NoPairs();
        NoPrefix(t);
      } else {
        OnePair(m, [0x3F, t[1]]);
        LeftAfter(m, [0x3F, t[1]], m, Data(PiContent, [0x3F, t[1]]), t[2..]);
        s, rest := FindPairs(m, t[2..]);
        PairsLonger([0x3F, t[1]], s);
        Assoc([0x3F, t[1]], s, [0x3F, 0x3E] + rest);
        s := [0x3F, t[1]] + s;
      }
    }
  }

  lemma NoPairs()
    ensures Cleans([]) && Pairs([])
  {
  }

  lemma StartReacts(r: Regs, c: Byte)
    requires (r.state == Pi(0) || r.state == Leq0) && OnByte(r, c).React?
    ensures NameStart(c)
  {
    NameIs(c);
    if r.state == Pi(0) { PiRow(r, c); } else { MarkRow(r, c); }
    hide OnByte, NameStart, NameByte, IsName, IsNameStart;
    assert NameStart(0x78) by { BigX(); }
  }

  lemma BigX()
    ensures NameStart(0x78)
  {
  }

  lemma SpaceAfterXml(r: Regs, c: Byte)
    requires r.state == XmlDecl(2) && OnByte(r, c).React? && !NameByte(c)
    ensures IsSP(c)
  {
    NameIs(c);
    DeclarationRow(r, c);
    hide OnByte, NameByte, IsName;
  }

  lemma NameEndReacts(m: Machine, name: Name, next: St, open: seq<Name>, c: Byte)
    requires HasTarget(m, name, next, open) && OnByte(m.regs, c).React? && !Negative(Step(m, c).ret) && !NameByte(c) && Plainly(m, c)
    ensures (c == 0x3F || c == 0x20 || c == 0x09 || c == 0x0A) && !NamesXml(name)
  {
    NameIs(c);
    LettersAreNames();
    if m.regs.state == Pi(1) { PiRow(m.regs, c); } else { DeclarationRow(m.regs, c); }
    hide OnByte, NameByte, IsName, Perform;
    StepIs(m, c, m.regs.(state := if c == 0x3F then Pi(4) else Pi(2)), EndPiName);
    EndPiRefuses(m.(regs := m.regs.(state := if c == 0x3F then Pi(4) else Pi(2))), name, c);
  }

  lemma LettersAreNames()
    ensures IsName(0x6D) && IsName(0x6C)
  {
  }

  lemma EndPiRefuses(m: Machine, name: Name, c: Byte)
    requires m.extra == [name] && !Negative(Perform(m, EndPiName, c).ret)
    ensures !NamesXml(name)
  {
  }

  lemma ClosesPi(r: Regs, c: Byte)
    requires r.state == Pi(4) && OnByte(r, c).React?
    ensures c == 0x3E
  {
    PiRow(r, c);
    hide OnByte;
  }

  lemma InstructionJoins(pi: Instruction, rest: seq<Byte>)
    ensures WriteInstruction(pi) + rest == [0x3C, 0x3F] + (pi.target + (pi.separator + (pi.data + ([0x3F, 0x3E] + rest))))
  {
    InstructionText(pi);
    hide *;
    var end: seq<Byte> := [0x3F, 0x3E];
    Assoc(pi.data, end, rest);
    Assoc(pi.separator, pi.data + end, rest);
    Assoc(pi.target, pi.separator + (pi.data + end), rest);
    Assoc([0x3C, 0x3F], pi.target + (pi.separator + (pi.data + end)), rest);
  }

  /** Behind the name of an instruction. */
  lemma FindData(m: Machine, target: Name, next: St, open: seq<Name>, v: seq<Byte>) returns (pi: Instruction, rest: seq<Byte>)
    requires HasTarget(m, target, next, open) && IsNameOf(target) && Left(m, v) && (v != [] ==> !NameByte(v[0]))
    ensures pi.target == target && v == pi.separator + (pi.data + ([0x3F, 0x3E] + rest)) && TakenInstruction(pi)
  {
    hide *;
    TargetFields(m, target, next, open);
    TargetState(m, target, next, open);
    MustGo(m, v);
    var c := v[0];
    NameEndReacts(m, target, next, open, c);
    NameEnds(m, target, next, open, c);
    FirstAndRest(v);
    var m1 := InState(m, if c == 0x3F then Pi(4) else Pi(2));
    StateIs(m, if c == 0x3F then Pi(4) else Pi(2));
    LeftAfter(m, [c], m1, [Mark(PiStart, target)], v[1..]);
    if c == 0x3F {
      MustGo(m1, v[1..]);
      ClosesPi(m1.regs, v[1..][0]);
      TwoAndRest(v);
      pi, rest := Instruction(target, [], []), v[2..];
      NoPairs();
      IsInstruction(pi);
      NoPrefix(v);
    } else {
      var data;
      data, rest := FindPairs(m1, v[1..]);
      pi := Instruction(target, [c], data);
      IsInstruction(pi);
    }
  }

  lemma TargetState(m: Machine, name: Name, next: St, open: seq<Name>)
    requires HasTarget(m, name, next, open)
    ensures m.regs.state != Misc(3)
  {
  }

  lemma IsInstruction(pi: Instruction)
    requires IsNameOf(pi.target) && !NamesXml(pi.target) && Cleans(pi.data) && Pairs(pi.data)
    requires (pi.separator == [] && pi.data == [])
      || (|pi.separator| == 1 && (pi.separator[0] == 0x20 || pi.separator[0] == 0x09 || pi.separator[0] == 0x0A))
    ensures TakenInstruction(pi)
  {
    hide IsNameOf, NamesXml, Cleans, Pairs;
  }

  lemma AskedIs(s: St)
    ensures (Asked(s) == Leq0 <==> s == Init || s == Misc(0)) && (Asked(s) == Leq0 || Asked(s) == Pi(0))
  {
  }

  /** An instruction, or the declaration where it may stand. */
  lemma FindInstruction(m: Machine, u: seq<Byte>, open: seq<Name>) returns (decl: bool, pi: Instruction, rest: seq<Byte>)
    requires Context(m.regs.state) && At(m, m.regs.state, open) && Left(m, [0x3C, 0x3F] + u)
    requires (m.regs.state == Init || m.regs.state == Misc(0) ==> open == [])
    ensures !decl ==> [0x3C, 0x3F] + u == WriteInstruction(pi) + rest && TakenInstruction(pi)
    ensures decl ==> (m.regs.state == Init || m.regs.state == Misc(0)) && |u| > 3 && u[..3] == [0x78, 0x6D, 0x6C] && IsSP(u[3])
  {
    hide *;
    var t := [0x3C, 0x3F] + u;
    AtFields(m, m.regs.state, open);
    AskedIs(m.regs.state);
    Introduced(m);
    var m1 := Target(m);
    LeftAfter(m, [0x3C, 0x3F], m1, [], u);
    MustGo(m1, u);
    StartReacts(m1.regs, u[0]);
    var s, v := FindName(u[1..]);
    var target := [u[0]] + s;
    NameFrom(u[0], s);
    FirstAndRest(u);
    Assoc([u[0]], s, v);
    Assoc([0x3C, 0x3F], target, v);
    RoomOf(m, t, |target| + 2);
    if target == [0x78, 0x6D, 0x6C] && Asked(m.regs.state) == Leq0 {
      LessRoom(m, |target| + 2, 5);
      var m2 := XmlNamed(m);
      assert [0x3C, 0x3F] + target == [0x3C, 0x3F, 0x78, 0x6D, 0x6C];
      LeftAfter(m, [0x3C, 0x3F] + target, m2, [], v);
      MustGo(m2, v);
      SpaceAfterXml(m2.regs, v[0]);
      assert u == target + v;
      decl, pi, rest := true, Instruction([], [], []), [];
    } else {
      var m2 := TargetIsRead(m, target, open);
      TargetFields(m2, target, Back(m.regs.state), open);
      LeftAfter(m, [0x3C, 0x3F] + target, m2, [], v);
      decl := false;
      pi, rest := FindData(m2, target, Back(m.regs.state), open, v);
      InstructionJoins(pi, rest);
    }
  }

  // ---------------------------------------------------------------- references

  lemma {:induction false} FindRefs(t: seq<Byte>) returns (s: seq<Byte>, rest: seq<Byte>)
    ensures t == s + rest && RefBytes(s) && (rest != [] ==> !IsRef(rest[0]))
    decreases |t|
  {
    if t == [] || !IsRef(t[0]) {
      s, rest := [], t;
    } else {
      s, rest := FindRefs(t[1..]);
      s := [t[0]] + s;
      assert t == [t[0]] + t[1..];
    }
  }

  lemma NotStrayed(m: Machine, t: seq<Byte>)
    requires Strays(m, t, [])
    ensures !Left(m, t)
  {
    hide Go;
  }

  lemma RefMustEnd(m: Machine, c: Byte)
    requires AtReference(m) && OnByte(m.regs, c).React? && !IsRef(c)
    ensures c == 0x3B
  {
    if m.regs.state == Attr(4) { AttrRow(m.regs, c); } else { MiscRow(m.regs, c); }
    hide OnByte, IsRef;
  }

  lemma {:induction false} NumeralDigits(s: seq<Byte>, base: nat, value: nat)
    requires (base == 10 || base == 16) && Numeral(s, base, value) != 0
    ensures forall i :: 0 <= i < |s| ==> if base == 10 then Digit(s[i]) else HexDigitOf(s[i])
    decreases |s|
  {
    if s != [] {
      NumeralDigits(s[1..], base, if base == 10 then value * 10 + (s[0] - 48) else value * 16 + HexDigit(s[0]));
      forall i | 0 <= i < |s|
        ensures if base == 10 then Digit(s[i]) else HexDigitOf(s[i])
      {
        if i > 0 { assert s[i] == s[1..][i - 1]; }
      }
    }
  }

  lemma NoNumeral(base: nat)
    ensures Numeral([], base, 0) == 0
  {
  }

  lemma TakenPoint(c: nat)
    ensures Accepted(c) <==> TakenCharacter(c)
  {
  }

  /** What a reference was that the parser accepts. */
  lemma PointName(s: seq<Byte>) returns (r: Reference)
    requires CodePoint(s) != 0
    ensures ReferenceName(r) == s && SpelledOut(r)
  {
    Entities();
    hide Numeral, Text;
    if s != [] && s[0] == 0x23 {
      if |s| > 1 && s[1] == 0x78 {
        r := Hexadecimal(s[2..]);
        assert s == [0x23, 0x78] + s[2..];
        NoNumeral(16);
        NumeralDigits(s[2..], 16, 0);
      } else {
        r := Decimal(s[1..]);
        assert s == [0x23] + s[1..];
        NoNumeral(10);
        NumeralDigits(s[1..], 10, 0);
      }
    } else {
      r := if s == [0x6C, 0x74] then Lt else if s == [0x67, 0x74] then Gt else if s == [0x61, 0x6D, 0x70] then Amp
        else if s == [0x61, 0x70, 0x6F, 0x73] then Apos else Quot;
    }
  }

  lemma TakenReferenceIs(r: Reference)
    requires SpelledOut(r) && |ReferenceName(r)| <= 7 && TakenCharacter(CodeOf(r))
    ensures TakenReference(r)
  {
    hide SpelledOut, ReferenceName, CodeOf;
  }

  lemma ZeroIsRefused()
    ensures !Accepted(0)
  {
  }

  /** Behind an ampersand. */
  lemma FindReference(m: Machine, t: seq<Byte>) returns (r: Reference, rest: seq<Byte>)
    requires AtReference(m) && m.reference == [] && Left(m, t)
    ensures t == ReferenceName(r) + ([0x3B] + rest) && TakenReference(r)
  {
    hide *;
    var s, v := FindRefs(t);
    ReferenceState(m, s);
    if |s| > 7 {
      LongStrays(m, s, v, []);
      NotStrayed(m, t);
      assert false;
    } else {
      var m1 := m.(reference := s);
      RefIsRead(m, s);
      NoPrefix(s);
      LeftAfter(m, s, m1, [], v);
      MustGo(m1, v);
      RefMustEnd(m1, v[0]);
      RefEndStep(m1);
      ErefIsNegative();
      ZeroIsRefused();
      TakenPoint(CodePoint(s));
      r := PointName(s);
      ReferencePoint(r);
      TakenReferenceIs(r);
      rest := v[1..];
      FirstAndRest(v);
    }
  }

  lemma ReferenceState(m: Machine, s: seq<Byte>)
    requires AtReference(m)
    ensures m.ignore == 0 && m.regs.state != Misc(3) && AtReference(m.(reference := s))
  {
  }

  lemma ReferJoins(r: Reference, rest: seq<Byte>)
    ensures WritePiece(Refer(r)) + rest == [0x26] + (ReferenceName(r) + ([0x3B] + rest))
  {
    var name := ReferenceName(r);
    Assoc(name, [0x3B], rest);
    Assoc([0x26], name + [0x3B], rest);
    hide *;
  }

  lemma TakenReferIs(r: Reference)
    requires TakenReference(r)
    ensures TakenPiece(Refer(r)) && forall q :: TakenValue(Refer(r), q)
  {
    hide TakenReference;
  }

  /** A reference in text or in a value. */
  lemma FindRefer(m: Machine, t: seq<Byte>) returns (r: Reference, rest: seq<Byte>)
    requires InText(m) && Left(m, t) && t != [] && t[0] == 0x26
    ensures t == WritePiece(Refer(r)) + rest && TakenReference(r)
  {
    hide *;
    RoomOf(m, t, 0);
    FirstAndRest(t);
    RefStarts(m);
    ReferringStarts(m);
    ReferringIs(m, Lt);
    ReferenceState(Referring(m), []);
    LeftAfter(m, [0x26], Referring(m), [], t[1..]);
    r, rest := FindReference(Referring(m), t[1..]);
    ReferJoins(r, rest);
  }

  // ---------------------------------------------------------------- attribute values

  lemma ValueReacts(m: Machine, q: Quote, c: Byte)
    requires m.regs.state == Attr(3) && m.regs.quote == QuoteMark(q) && OnByte(m.regs, c).React? && c != QuoteMark(q)
    ensures c != 0x3C
  {
    AttrRow(m.regs, c);
    hide OnByte;
  }

  lemma PlainValueIs(b: Byte, q: Quote)
    requires Clean(b) && b != 0x3C && b != 0x26 && b != QuoteMark(q)
    ensures TakenValue(Plain(b), q) && WritePiece(Plain(b)) == [b]
  {
  }

  lemma WritesPiece(p: Piece)
    ensures WritePiece(p) != []
  {
  }

  lemma FindValue(m: Machine, q: Quote, t: seq<Byte>) returns (p: Piece, rest: seq<Byte>)
    requires m.regs.state == Attr(3) && m.regs.quote == QuoteMark(q) && Left(m, t) && t != [] && t[0] != QuoteMark(q)
    ensures t == WritePiece(p) + rest && TakenValue(p, q) && WritePiece(p) != []
  {
    hide *;
    RoomOf(m, t, 0);
    MustGo(m, t);
    ValueReacts(m, q, t[0]);
    if t[0] == 0x26 {
      ValueHere(m, q);
      var r;
      r, rest := FindRefer(m, t);
      p := Refer(r);
      TakenReferIs(r);
    } else {
      p, rest := Plain(t[0]), t[1..];
      PlainValueIs(t[0], q);
      FirstAndRest(t);
    }
    WritesPiece(p);
  }

  lemma ValuesLonger(p: Piece, ps: seq<Piece>, q: Quote)
    requires TakenValue(p, q) && TakenValues(ps, q)
    ensures TakenValues([p] + ps, q) && WritePieces([p] + ps) == WritePiece(p) + WritePieces(ps)
  {
    hide TakenValue, WritePiece;
    assert ([p] + ps)[1..] == ps;
  }

  lemma NoValues(q: Quote)
    ensures TakenValues([], q) && WritePieces([]) == []
  {
  }

  lemma {:induction false} FindValues(m: Machine, q: Quote, t: seq<Byte>) returns (ps: seq<Piece>, rest: seq<Byte>)
    requires m.regs.state == Attr(3) && m.regs.quote == QuoteMark(q) && Left(m, t)
    ensures t == WritePieces(ps) + ([QuoteMark(q)] + rest) && TakenValues(ps, q)
    decreases |t|
  {
    hide *;
    RoomOf(m, t, 0);
    MustGo(m, t);
    if t[0] == QuoteMark(q) {
      ps, rest := [], t[1..];
      NoValues(q);
      FirstAndRest(t);
      NoPrefix(t);
    } else {
      var p, v := FindValue(m, q, t);
      var m1 := ValueIsRead(m, p, q);
      KeptFields(m, m1);
      LeftAfter(m, WritePiece(p), m1, Data(AttrVal, ValueOf(p)), v);
      ps, rest := FindValues(m1, q, v);
      ValuesLonger(p, ps, q);
      Assoc(WritePiece(p), WritePieces(ps), [QuoteMark(q)] + rest);
      ps := [p] + ps;
    }
  }

  // ---------------------------------------------------------------- attributes

  lemma AttributeReacts(r: Regs, c: Byte)
    requires r.state.Attr? && OnByte(r, c).React?
    ensures r.state == Attr(0) && !IsName(c) && !IsSP(c) ==> c == 0x3D
    ensures r.state == Attr(1) && !IsSP(c) ==> c == 0x3D
    ensures r.state == Attr(2) && !IsSP(c) ==> c == 0x27 || c == 0x22
  {
    AttrRow(r, c);
    hide OnByte, IsName, IsSP;
  }

  function QuoteOf(c: Byte): Quote { if c == 0x27 then Single else Double }

  lemma QuoteOfIs(c: Byte)
    requires c == 0x27 || c == 0x22
    ensures QuoteMark(QuoteOf(c)) == c
  {
  }

  /** The equals sign and the white space in front of it. */
  lemma FindEquals(m: Machine, name: Name, t: seq<Byte>) returns (left: seq<Byte>, rest: seq<Byte>)
    requires m.regs.state == Attr(0) && m.extra == [name] && Left(m, t) && (t != [] ==> !NameByte(t[0]))
    ensures t == left + ([0x3D] + rest) && Blanks(left)
  {
    hide *;
    RoomOf(m, t, 0);
    MustGo(m, t);
    NameIs(t[0]);
    AttributeReacts(m.regs, t[0]);
    var v;
    left, v := FindBlanks(t);
    if left == [] {
      NoPrefix(v);
    } else {
      var m1 := InState(m, Attr(1));
      FirstBlank(left);
      FirstAndRest(left);
      NotEquals(left[0]);
      AttributeNamed(m, left[0], name);
      StateIs(m, Attr(1));
      ElemIdles();
      Waits(m1, left[1..]);
      Assoc([left[0]], left[1..], v);
      LeftAfter(m, [left[0]], m1, [Mark(AttrStart, name)], left[1..] + v);
      LeftAfter(m1, left[1..], m1, [], v);
      MustGo(m1, v);
      AttributeReacts(m1.regs, v[0]);
    }
    rest := v[1..];
    FirstAndRest(v);
  }

  /** The white space and the value behind the equals sign. */
  lemma FindQuoted(m: Machine, t: seq<Byte>) returns (right: seq<Byte>, q: Quote, ps: seq<Piece>, rest: seq<Byte>)
    requires m.regs.state == Attr(2) && Left(m, t)
    ensures t == right + (InQuotes(q, WritePieces(ps)) + rest) && Blanks(right) && TakenValues(ps, q)
  {
    hide *;
    RoomOf(m, t, 0);
    ElemIdles();
    var v;
    right, v := FindBlanks(t);
    Waits(m, right);
    LeftAfter(m, right, m, [], v);
    MustGo(m, v);
    AttributeReacts(m.regs, v[0]);
    q := QuoteOf(v[0]);
    QuoteOfIs(v[0]);
    QuoteOpens(m, q);
    var m1 := m.(regs := m.regs.(state := Attr(3), quote := QuoteMark(q)));
    FirstAndRest(v);
    LeftAfter(m, [v[0]], m1, [], v[1..]);
    ps, rest := FindValues(m1, q, v[1..]);
    QuotedJoins(q, WritePieces(ps), rest);
  }

  lemma QuotedJoins(q: Quote, s: seq<Byte>, rest: seq<Byte>)
    ensures InQuotes(q, s) + rest == [QuoteMark(q)] + (s + ([QuoteMark(q)] + rest))
  {
    Assoc(s, [QuoteMark(q)], rest);
    Assoc([QuoteMark(q)], s + [QuoteMark(q)], rest);
  }

  lemma AttributeJoins(a: Attribute, rest: seq<Byte>)
    ensures WriteAttribute(a) + rest ==
      a.space + (a.name + (a.left + ([0x3D] + (a.right + (InQuotes(a.quote, WritePieces(a.value)) + rest)))))
  {
    var value := InQuotes(a.quote, WritePieces(a.value));
    AttributeText(a);
    hide *;
    Assoc(a.right, value, rest);
    Assoc([0x3D], a.right + value, rest);
    Assoc(a.left, [0x3D] + (a.right + value), rest);
    Assoc(a.name, a.left + ([0x3D] + (a.right + value)), rest);
    Assoc(a.space, a.name + (a.left + ([0x3D] + (a.right + value))), rest);
  }

  lemma IsAttribute(a: Attribute)
    requires a.space != [] && Blanks(a.space) && IsNameOf(a.name) && Blanks(a.left) && Blanks(a.right) && TakenValues(a.value, a.quote)
    ensures TakenAttribute(a)
  {
    hide Blanks, IsNameOf, TakenValues;
  }

  /** An attribute behind its white space. */
  lemma FindAttribute(m: Machine, space: seq<Byte>, t: seq<Byte>) returns (a: Attribute, rest: seq<Byte>)
    requires m.regs.state == Elem(1) && m.extra == [] && Left(m, t) && t != [] && NameStart(t[0]) && space != [] && Blanks(space)
    ensures space + t == WriteAttribute(a) + rest && TakenAttribute(a)
  {
    hide *;
    FirstAndRest(t);
    var s, v := FindName(t[1..]);
    var name := [t[0]] + s;
    NameFrom(t[0], s);
    Assoc([t[0]], s, v);
    RoomOf(m, t, |name|);
    AttributeName(m, name);
    var m1 := InState(m, Attr(0)).(extra := [name]);
    NamedIs(m, name);
    LeftAfter(m, name, m1, [], v);
    var left, u := FindEquals(m1, name, v);
    AttributeEquals(m1, name, left);
    var m2 := InState(m1, Attr(2));
    StateIs(m1, Attr(2));
    Assoc(left, [0x3D], u);
    LeftAfter(m1, left + [0x3D], m2, [Mark(AttrStart, name)], u);
    var right, q, ps;
    right, q, ps, rest := FindQuoted(m2, u);
    a := Attribute(space, name, left, right, q, ps);
    IsAttribute(a);
    AttributeJoins(a, rest);
  }

  lemma TagReacts(r: Regs, c: Byte)
    requires (r.state == Elem(0) || r.state == Elem(1) || r.state == Elem(2)) && OnByte(r, c).React? && !IsSP(c)
    requires r.state == Elem(0) ==> !IsName(c)
    ensures c == 0x2F || c == 0x3E || (r.state == Elem(1) && NameStart(c))
  {
    NameIs(c);
    ElemRow(r, c);
    hide OnByte, IsName, IsSP, NameStart, NameByte, IsNameStart;
  }

  lemma AttributesLonger(a: Attribute, attributes: seq<Attribute>)
    requires TakenAttribute(a) && TakenAttributes(attributes)
    ensures TakenAttributes([a] + attributes) && WriteAttributes([a] + attributes) == WriteAttribute(a) + WriteAttributes(attributes)
  {
    hide TakenAttribute, WriteAttribute;
    assert ([a] + attributes)[1..] == attributes;
  }

  lemma NoneTaken()
    ensures TakenAttributes([]) && WriteAttributes([]) == []
  {
  }

  /** The rest of a start tag or an empty element, up to its slash or its closing bracket. */
  lemma {:induction false} FindAttributes(m: Machine, t: seq<Byte>, name: Name, outer: seq<Name>)
    returns (attributes: seq<Attribute>, space: seq<Byte>, c: Byte, rest: seq<Byte>)
    requires (m.regs.state == Elem(0) || m.regs.state == Elem(2)) && At(m, m.regs.state, outer + [name]) && Left(m, t)
    requires m.regs.state == Elem(0) && t != [] ==> !NameByte(t[0])
    ensures t == WriteAttributes(attributes) + (space + ([c] + rest))
    ensures TakenAttributes(attributes) && Blanks(space) && (c == 0x2F || c == 0x3E)
    decreases |t|
  {
    hide *;
    AtFields(m, m.regs.state, outer + [name]);
    MustGo(m, t);
    NameIs(t[0]);
    NoneTaken();
    var w, v := FindBlanks(t);
    if w == [] {
      NoPrefix(v);
      TagReacts(m.regs, t[0]);
      attributes, space, c, rest := [], [], t[0], t[1..];
      FirstAndRest(t);
    } else {
      SpaceInTag(m, w, name, outer);
      var m1 := InState(m, Elem(1));
      StateIs(m, Elem(1));
      LeftAfter(m, w, m1, Pending(m.regs.state, name), v);
      MustGo(m1, v);
      TagReacts(m1.regs, v[0]);
      FirstAndRest(v);
      if v[0] == 0x2F || v[0] == 0x3E {
        attributes, space, c, rest := [], w, v[0], v[1..];
        NoPrefix(t);
      } else {
        var a, u := FindAttribute(m1, w, v);
        RoomOf(m, t, |WriteAttribute(a)|);
        var m2 := AttributeIsRead(m, a, name, outer);
        AtFields(m2, Elem(2), outer + [name]);
        LeftAfter(m, WriteAttribute(a), m2, Pending(m.regs.state, name) + AttributeReports(a), u);
        AttributeIsSome(a);
        attributes, space, c, rest := FindAttributes(m2, u, name, outer);
        AttributesLonger(a, attributes);
        Assoc(WriteAttribute(a), WriteAttributes(attributes), space + ([c] + rest));
        attributes := [a] + attributes;
      }
    }
  }

  lemma AttributeIsSome(a: Attribute)
    requires TakenAttribute(a)
    ensures |WriteAttribute(a)| > 0
  {
  }
}
