// The XML declaration as the XML automaton takes it.
module XmlDeclaration {
  import opened Bytes
  import opened Options
  import opened Sequences
  import opened XmlStates
  import opened XmlAutomaton
  import opened XmlDocuments
  import opened XmlSteps
  import opened XmlRuns
  import opened XmlMarkup
  import opened XmlInstructions
  import opened XmlProlog

  // ---------------------------------------------------------------- "<?xml"

  lemma XmlLetter(m: Machine, k: nat, c: Byte)
    requires k < 2 && m.regs.state == XmlDecl(k) && |m.extra| == 1 && m.ignore == 0 && Roomy(m, 1) && c == (if k == 0 then 0x6D else 0x6C)
    ensures Trip(m, [c], InState(m, XmlDecl(k + 1)).(extra := [m.extra[0] + [c]]), [])
  {
    assert m.extra == [m.extra[0]];
    TargetGoesOn(m, k, m.extra[0], c);
    hide Trip, Depth;
  }

  lemma Aborts(m: Machine, c: Byte)
    requires m.regs.state == XmlDecl(2) && IsSP(c) && m.ignore == 0
    ensures Trip(m, [c], InState(m, XmlDecl(3)).(extra := []), [])
  {
    SpaceIsPlain(c);
    DeclarationRow(m.regs, c);
    hide OnByte, Trip;
    StepIs(m, c, InState(m, XmlDecl(3)).regs, AbortPi);
    One(m, c);
  }

  lemma SpaceIsPlain(c: Byte)
    requires IsSP(c)
    ensures c != NUL && c != 13
  {
  }

  lemma TargetOf(m: Machine)
    requires m.regs.state == Init || m.regs.state == Misc(0)
    ensures Context(m.regs.state) && Target(m).regs.state == Leq0 && Asked(m.regs.state) == Leq0 && NameStart(0x78)
  {
  }

  lemma XmlNamed(m: Machine) returns (m': Machine)
    requires (m.regs.state == Init || m.regs.state == Misc(0)) && At(m, m.regs.state, []) && Roomy(m, 5)
    ensures Trip(m, [0x3C, 0x3F, 0x78, 0x6D, 0x6C], m', [])
    ensures m'.regs.state == XmlDecl(2) && m'.ignore == 0 && m'.open == [] && m'.tag == [] && m'.room == m.room
  {
    hide *;
    var s := m.regs.state;
    AtFields(m, s, []);
    TargetOf(m);
    Introduced(m);
    var m1 := Target(m);
    var m2 := m1.(regs := m1.regs.(state := XmlDecl(0), next := Back(s)), extra := [[0x78]]);
    RoomLeft(m, [0x3C, 0x3F], m1, [], 3);
    LessRoom(m1, 3, 1);
    TargetStarts(m1, s, 0x78);
    RoomLeft(m1, [0x78], m2, [], 2);
    m' := LettersAreRead(m2);
    QuietFirst(m1, [0x78], m2, [0x6D] + [0x6C], m', []);
    QuietFirst(m, [0x3C, 0x3F], m1, [0x78] + ([0x6D] + [0x6C]), m', []);
    assert [0x3C, 0x3F] + ([0x78] + ([0x6D] + [0x6C])) == [0x3C, 0x3F, 0x78, 0x6D, 0x6C];
  }

  lemma LettersAreRead(m: Machine) returns (m': Machine)
    requires m.regs.state == XmlDecl(0) && m.extra == [[0x78]] && m.ignore == 0 && Roomy(m, 2)
    ensures Trip(m, [0x6D] + [0x6C], m', [])
    ensures m'.regs.state == XmlDecl(2) && m'.ignore == 0 && m'.open == m.open && m'.tag == m.tag && m'.room == m.room
  {
    hide *;
    var m1 := InState(m, XmlDecl(1)).(extra := [[0x78] + [0x6D]]);
    m' := InState(m1, XmlDecl(2)).(extra := [[0x78] + [0x6D] + [0x6C]]);
    LessRoom(m, 2, 1);
    XmlLetter(m, 0, 0x6D);
    StateIs(m, XmlDecl(1));
    RoomLeft(m, [0x6D], m1, [], 1);
    XmlLetter(m1, 1, 0x6C);
    StateIs(m1, XmlDecl(2));
    QuietFirst(m, [0x6D], m1, [0x6C], m', []);
  }

  /** The start of the declaration and the first space. */
  lemma XmlOpens(m: Machine, c: Byte) returns (m': Machine)
    requires (m.regs.state == Init || m.regs.state == Misc(0)) && At(m, m.regs.state, []) && IsSP(c) && Roomy(m, 6)
    ensures Trip(m, [0x3C, 0x3F, 0x78, 0x6D, 0x6C] + [c], m', []) && At(m', XmlDecl(3), []) && m'.room == m.room
  {
    hide *;
    LessRoom(m, 6, 5);
    var m1 := XmlNamed(m);
    m' := InState(m1, XmlDecl(3)).(extra := []);
    Aborts(m1, c);
    StateIs(m1, XmlDecl(3));
    QuietFirst(m, [0x3C, 0x3F, 0x78, 0x6D, 0x6C], m1, [c], m', []);
    ClosedAt(m', XmlDecl(3), []);
  }

  // ---------------------------------------------------------------- words

  const ERSION: seq<Byte> := [0x65, 0x72, 0x73, 0x69, 0x6F, 0x6E]
  const NCODING: seq<Byte> := [0x6E, 0x63, 0x6F, 0x64, 0x69, 0x6E, 0x67]
  const TANDALONE: seq<Byte> := [0x74, 0x61, 0x6E, 0x64, 0x61, 0x6C, 0x6F, 0x6E, 0x65]

  lemma Words()
    ensures [0x76] + ERSION == VERSION && [0x65] + NCODING == ENCODING && [0x73] + TANDALONE == STANDALONE
    ensures PlainWord(ERSION) && PlainWord(NCODING) && PlainWord(TANDALONE)
  {
  }

  predicate PlainWord(word: seq<Byte>) { word != [] && NUL !in word && 13 !in word }

  lemma Plain13(word: seq<Byte>)
    requires PlainWord(word)
    ensures word != [] && NUL !in word && 13 !in word
  {
  }

  lemma Ersion()
    ensures Text("ersion") == ERSION
  {
    assert "ersion"[1..] == "rsion" && "rsion"[1..] == "sion";
    Four('s', 'i', 'o', 'n');
  }

  lemma Ncoding()
    ensures Text("ncoding") == NCODING
  {
    assert "ncoding"[1..] == "coding" && "coding"[1..] == "oding" && "oding"[1..] == "ding";
    Four('d', 'i', 'n', 'g');
    assert Text("oding") == [0x6F] + Text("ding");
  }

  lemma Tandalone()
    ensures Text("tandalone") == TANDALONE
  {
    Andalone();
    OneLetter("tandalone", "andalone");
    hide Text;
  }

  lemma Andalone()
    ensures Text("andalone") == [0x61, 0x6E, 0x64, 0x61, 0x6C, 0x6F, 0x6E, 0x65]
  {
    Ndalone();
    OneLetter("andalone", "ndalone");
    hide Text;
  }

  lemma OneLetter(s: string, rest: string)
    requires s != "" && s[1..] == rest && forall i :: 0 <= i < |s| ==> s[i] as int < 256
    ensures (forall i :: 0 <= i < |rest| ==> rest[i] as int < 256) && Text(s) == [s[0] as int] + Text(rest)
  {
    forall i | 0 <= i < |rest| ensures rest[i] as int < 256 { assert rest[i] == s[i + 1]; }
  }

  lemma Ndalone()
    ensures Text("ndalone") == [0x6E, 0x64, 0x61, 0x6C, 0x6F, 0x6E, 0x65]
  {
    Dalone();
    assert "ndalone"[1..] == "dalone";
  }

  lemma Dalone()
    ensures Text("dalone") == [0x64, 0x61, 0x6C, 0x6F, 0x6E, 0x65]
  {
    Alone();
    assert "dalone"[1..] == "alone";
  }

  lemma Alone()
    ensures Text("alone") == [0x61, 0x6C, 0x6F, 0x6E, 0x65]
  {
    assert "alone"[1..] == "lone";
    Four('l', 'o', 'n', 'e');
  }

  /** Where a word may begin and where it leads. */
  predicate WordAt(s: St, first: Byte, word: seq<Byte>, next: St) {
    || (s == XmlDecl(3) && first == 0x76 && word == ERSION && next == Ver(0))
    || (s == XmlDecl(5) && first == 0x65 && word == NCODING && next == Enc(0))
    || ((s == XmlDecl(5) || s == XmlDecl(7)) && first == 0x73 && word == TANDALONE && next == Std(0))
  }

  lemma VersionWord(m: Machine)
    requires m.regs.state == XmlDecl(3) && m.ignore == 0
    ensures Trip(m, [0x76], Expecting(m, Ver(0), ERSION), [])
  {
    Ersion();
    VersionRow(m.regs, 0x76);
    hide OnByte, Trip, Text;
    Silent(m, 0x76, Expecting(m, Ver(0), ERSION).regs);
  }

  lemma EncodingWord(m: Machine)
    requires m.regs.state == XmlDecl(5) && m.ignore == 0
    ensures Trip(m, [0x65], Expecting(m, Enc(0), NCODING), [])
  {
    EncodingReacts(m.regs);
    hide OnByte, Trip;
    Silent(m, 0x65, Expecting(m, Enc(0), NCODING).regs);
  }

  lemma EncodingReacts(r: Regs)
    requires r.state == XmlDecl(5)
    ensures OnByte(r, 0x65) == Literally(r, NCODING, Enc(0))
  {
    Ncoding();
    EncodingRow(r, 0x65);
    hide OnByte, Text;
  }

  lemma StandaloneWord(m: Machine)
    requires (m.regs.state == XmlDecl(5) || m.regs.state == XmlDecl(7)) && m.ignore == 0
    ensures Trip(m, [0x73], Expecting(m, Std(0), TANDALONE), [])
  {
    StandaloneRows(m.regs);
    hide OnByte, Trip;
    Silent(m, 0x73, Expecting(m, Std(0), TANDALONE).regs);
  }

  lemma StandaloneRows(r: Regs)
    requires r.state == XmlDecl(5) || r.state == XmlDecl(7)
    ensures OnByte(r, 0x73) == Literally(r, TANDALONE, Std(0))
  {
    Tandalone();
    if r.state == XmlDecl(5) { EncodingRow(r, 0x73); } else { StandaloneRow(r, 0x73); }
    hide OnByte, Text;
  }

  lemma WordCases(s: St, first: Byte, word: seq<Byte>, next: St)
    requires WordAt(s, first, word, next)
    ensures (s == XmlDecl(3) && first == 0x76 && word == ERSION && next == Ver(0))
      || (s == XmlDecl(5) && first == 0x65 && word == NCODING && next == Enc(0))
      || ((s == XmlDecl(5) || s == XmlDecl(7)) && first == 0x73 && word == TANDALONE && next == Std(0))
  {
  }

  lemma WordBegins(m: Machine, first: Byte, word: seq<Byte>, next: St)
    requires WordAt(m.regs.state, first, word, next) && m.ignore == 0
    ensures Trip(m, [first], Expecting(m, next, word), [])
    ensures word != [] && NUL !in word && 13 !in word
  {
    hide *;
    Words();
    WordCases(m.regs.state, first, word, next);
    Plain13(word);
    if first == 0x76 { VersionWord(m); } else if first == 0x65 { EncodingWord(m); } else { StandaloneWord(m); }
  }

  lemma WordIsRead(m: Machine, first: Byte, word: seq<Byte>, next: St) returns (m': Machine)
    requires WordAt(m.regs.state, first, word, next) && m.ignore == 0
    ensures Trip(m, [first] + word, m', []) && OnlyRegs(m, m') && m'.regs.state == next
  {
    hide *;
    WordBegins(m, first, word, next);
    Expected(m, next, word);
    m' := Spelled(Expecting(m, next, word));
    QuietFirst(m, [first], Expecting(m, next, word), word, m', []);
    RegsAre(m, m');
  }

  lemma RegsAre(m: Machine, m': Machine)
    requires m' == m.(regs := m'.regs)
    ensures OnlyRegs(m, m')
  {
  }

  // ---------------------------------------------------------------- the equals sign and the opening quote

  function EqualTo(s: St): St {
    if s == Ver(0) then Ver(1) else if s == Enc(0) then Enc(1) else Std(1)
  }

  lemma EqualByte(m: Machine)
    requires (m.regs.state == Ver(0) || m.regs.state == Enc(0) || m.regs.state == Std(0)) && m.ignore == 0
    ensures Trip(m, [0x3D], InState(m, EqualTo(m.regs.state)), [])
  {
    if m.regs.state == Ver(0) { VersionRow(m.regs, 0x3D); }
    else if m.regs.state == Enc(0) { EncodingRow(m.regs, 0x3D); }
    else { StandaloneRow(m.regs, 0x3D); }
    hide OnByte, Trip;
    Silent(m, 0x3D, InState(m, EqualTo(m.regs.state)).regs);
  }

  lemma EqualIdles(s: St)
    requires s == Ver(0) || s == Enc(0) || s == Std(0)
    ensures Idles(s) && Idles(EqualTo(s)) && Idles(XmlDecl(3)) && Idles(XmlDecl(5)) && Idles(XmlDecl(7)) && Idles(XmlDecl(8))
  {
  }

  lemma EqualIsRead(m: Machine, left: seq<Byte>, right: seq<Byte>)
    requires (m.regs.state == Ver(0) || m.regs.state == Enc(0) || m.regs.state == Std(0)) && m.ignore == 0
    requires Blanks(left) && Blanks(right)
    ensures Trip(m, left + ([0x3D] + right), InState(m, EqualTo(m.regs.state)), [])
  {
    hide *;
    var m1 := InState(m, EqualTo(m.regs.state));
    EqualIdles(m.regs.state);
    Waits(m, left);
    EqualByte(m);
    StateIs(m, EqualTo(m.regs.state));
    Waits(m1, right);
    QuietFirst(m, [0x3D], m1, right, m1, []);
    QuietFirst(m, left, m, [0x3D] + right, m1, []);
  }

  // ---------------------------------------------------------------- the values

  lemma DigitByte(m: Machine, c: Byte)
    requires (m.regs.state == Ver(2) || m.regs.state == Ver(3)) && Digit(c) && m.ignore == 0
    ensures Trip(m, [c], InState(m, Ver(3)), [])
  {
    VersionRow(m.regs, c);
    hide OnByte, Trip;
    Silent(m, c, InState(m, Ver(3)).regs);
  }

  lemma {:induction false} DigitsAreRead(m: Machine, s: seq<Byte>)
    requires m.regs.state == Ver(3) && m.ignore == 0 && forall i :: 0 <= i < |s| ==> Digit(s[i])
    ensures Trip(m, s, m, [])
    decreases |s|
  {
    hide Trip, Digit;
    if s == [] {
      Nowhere(m);
    } else {
      DigitByte(m, s[0]);
      assert InState(m, Ver(3)) == m;
      DigitsAreRead(m, s[1..]);
      QuietFirst(m, [s[0]], m, s[1..], m, []);
      assert [s[0]] + s[1..] == s;
    }
  }

  lemma VersionOpens(m: Machine, q: Quote)
    requires m.regs.state == Ver(1) && m.ignore == 0
    ensures Trip(m, [QuoteMark(q)], Expecting(m.(regs := m.regs.(quote := QuoteMark(q))), Ver(2), [0x31, 0x2E]), [])
  {
    Pair('1', '.');
    VersionRow(m.regs, QuoteMark(q));
    hide OnByte, Trip, Text;
    Silent(m, QuoteMark(q), Expecting(m.(regs := m.regs.(quote := QuoteMark(q))), Ver(2), [0x31, 0x2E]).regs);
  }

  /** The closing quote of a value. */
  lemma ValueCloses(m: Machine, q: Quote)
    requires (m.regs.state == Ver(3) || m.regs.state == Enc(3) || m.regs.state == Std(3)) && m.regs.quote == QuoteMark(q) && m.ignore == 0
    ensures Trip(m, [QuoteMark(q)],
      InState(m, if m.regs.state == Ver(3) then XmlDecl(4) else if m.regs.state == Enc(3) then XmlDecl(6) else XmlDecl(8)), [])
  {
    var c := QuoteMark(q);
    var s := if m.regs.state == Ver(3) then XmlDecl(4) else if m.regs.state == Enc(3) then XmlDecl(6) else XmlDecl(8);
    if m.regs.state == Ver(3) { VersionRow(m.regs, c); }
    else if m.regs.state == Enc(3) { EncodingRow(m.regs, c); }
    else { StandaloneRow(m.regs, c); }
    hide OnByte, Trip;
    Silent(m, c, InState(m, s).regs);
  }

  lemma VersionParts(s: seq<Byte>)
    requires GoodVersion(s)
    ensures |s| > 2 && s == [0x31, 0x2E] + ([s[2]] + s[3..]) && Digit(s[2])
    ensures forall i :: 0 <= i < |s[3..]| ==> Digit(s[3..][i])
  {
  }

  lemma Dotted(m: Machine, q: Quote)
    requires m.regs.state == Ver(1) && m.ignore == 0
    ensures var m1 := m.(regs := m.regs.(quote := QuoteMark(q)));
      Trip(Expecting(m1, Ver(2), [0x31, 0x2E]), [0x31, 0x2E], Spelled(Expecting(m1, Ver(2), [0x31, 0x2E])), [])
    ensures var m2 := Spelled(Expecting(m.(regs := m.regs.(quote := QuoteMark(q))), Ver(2), [0x31, 0x2E]));
      m2.regs.state == Ver(2) && m2.regs.quote == QuoteMark(q) && m2.ignore == 0 && OnlyRegs(m, m2)
  {
    Expected(m.(regs := m.regs.(quote := QuoteMark(q))), Ver(2), [0x31, 0x2E]);
    hide Trip, Spelled, Expecting;
  }

  lemma QuoteStays(m: Machine, s: St)
    ensures InState(m, s).regs.quote == m.regs.quote && InState(m, s).regs.state == s && InState(m, s).ignore == m.ignore
    ensures OnlyRegs(m, InState(m, s))
  {
  }

  lemma VersionIsRead(m: Machine, q: Quote, s: seq<Byte>) returns (m': Machine)
    requires m.regs.state == Ver(1) && m.ignore == 0 && GoodVersion(s)
    ensures Trip(m, InQuotes(q, s), m', []) && OnlyRegs(m, m') && m'.regs.state == XmlDecl(4)
  {
    hide *;
    VersionParts(s);
    var end := [QuoteMark(q)];
    var m1 := Expecting(m.(regs := m.regs.(quote := QuoteMark(q))), Ver(2), [0x31, 0x2E]);
    var m2 := Spelled(m1);
    var m3 := InState(m2, Ver(3));
    m' := InState(m3, XmlDecl(4));
    VersionOpens(m, q);
    Dotted(m, q);
    DigitByte(m2, s[2]);
    QuoteStays(m2, Ver(3));
    QuoteStays(m3, XmlDecl(4));
    DigitsAreRead(m3, s[3..]);
    ValueCloses(m3, q);
    QuietFirst(m3, s[3..], m3, end, m', []);
    QuietFirst(m2, [s[2]], m3, s[3..] + end, m', []);
    Assoc([s[2]], s[3..], end);
    QuietFirst(m1, [0x31, 0x2E], m2, ([s[2]] + s[3..]) + end, m', []);
    Assoc([0x31, 0x2E], [s[2]] + s[3..], end);
    QuietFirst(m, end, m1, s + end, m', []);
    QuotedIs(q, s);
    RegsTwice(m, m2, m3);
    RegsTwice(m, m3, m');
  }

  lemma QuotedIs(q: Quote, s: seq<Byte>)
    ensures InQuotes(q, s) == [QuoteMark(q)] + (s + [QuoteMark(q)])
  {
  }

  predicate EncodingByte(c: Byte) { Letter(c) || Digit(c) || c == 0x2E || c == 0x5F || c == 0x2D }

  lemma EncodingStep(m: Machine, c: Byte)
    requires (m.regs.state == Enc(2) && Letter(c)) || (m.regs.state == Enc(3) && EncodingByte(c))
    requires m.ignore == 0
    ensures Trip(m, [c], InState(m, Enc(3)), [])
  {
    EncodingRow(m.regs, c);
    hide OnByte, Trip;
    Silent(m, c, InState(m, Enc(3)).regs);
  }

  lemma {:induction false} EncodingBytes(m: Machine, s: seq<Byte>)
    requires m.regs.state == Enc(3) && m.ignore == 0 && forall i :: 0 <= i < |s| ==> EncodingByte(s[i])
    ensures Trip(m, s, m, [])
    decreases |s|
  {
    hide Trip, EncodingByte, Letter;
    if s == [] {
      Nowhere(m);
    } else {
      EncodingStep(m, s[0]);
      assert InState(m, Enc(3)) == m;
      EncodingBytes(m, s[1..]);
      QuietFirst(m, [s[0]], m, s[1..], m, []);
      assert [s[0]] + s[1..] == s;
    }
  }

  lemma EncodingOpens(m: Machine, q: Quote)
    requires (m.regs.state == Enc(1) || m.regs.state == Std(1)) && m.ignore == 0
    ensures Trip(m, [QuoteMark(q)], m.(regs := m.regs.(state := if m.regs.state == Enc(1) then Enc(2) else Std(2), quote := QuoteMark(q))), [])
  {
    var r := m.regs.(state := if m.regs.state == Enc(1) then Enc(2) else Std(2), quote := QuoteMark(q));
    if m.regs.state == Enc(1) { EncodingRow(m.regs, QuoteMark(q)); } else { StandaloneRow(m.regs, QuoteMark(q)); }
    hide OnByte, Trip;
    Silent(m, QuoteMark(q), r);
  }

  lemma EncodingParts(s: seq<Byte>)
    requires GoodEncoding(s)
    ensures s != [] && Letter(s[0]) && s == [s[0]] + s[1..] && forall i :: 0 <= i < |s[1..]| ==> EncodingByte(s[1..][i])
  {
    forall i | 0 <= i < |s[1..]|
      ensures EncodingByte(s[1..][i])
    {
      assert s[1..][i] == s[i + 1];
    }
  }

  lemma EncodingIsRead(m: Machine, q: Quote, s: seq<Byte>) returns (m': Machine)
    requires m.regs.state == Enc(1) && m.ignore == 0 && GoodEncoding(s)
    ensures Trip(m, InQuotes(q, s), m', []) && OnlyRegs(m, m') && m'.regs.state == XmlDecl(6)
  {
    EncodingParts(s);
    var m1 := m.(regs := m.regs.(state := Enc(2), quote := QuoteMark(q)));
    var m2 := InState(m1, Enc(3));
    m' := InState(m1, XmlDecl(6));
    EncodingOpens(m, q);
    EncodingStep(m1, s[0]);
    EncodingBytes(m2, s[1..]);
    ValueCloses(m2, q);
    hide Trip, GoodEncoding, EncodingByte, Letter;
    QuietFirst(m2, s[1..], m2, [QuoteMark(q)], m', []);
    QuietFirst(m1, [s[0]], m2, s[1..] + [QuoteMark(q)], m', []);
    assert [s[0]] + (s[1..] + [QuoteMark(q)]) == s + [QuoteMark(q)];
    QuietFirst(m, [QuoteMark(q)], m1, s + [QuoteMark(q)], m', []);
  }

  lemma AnswerBegins(m: Machine, yes: bool)
    requires m.regs.state == Std(2) && m.ignore == 0
    ensures Trip(m, [if yes then 0x79 else 0x6E], Expecting(m, Std(3), if yes then [0x65, 0x73] else [0x6F]), [])
  {
    var c := if yes then 0x79 else 0x6E;
    Pair('e', 's');
    Letter1('o');
    StandaloneRow(m.regs, c);
    hide OnByte, Trip, Text;
    Silent(m, c, Expecting(m, Std(3), if yes then [0x65, 0x73] else [0x6F]).regs);
  }

  lemma Letter1(a: char)
    requires a as int < 256
    ensures Text([a]) == [a as int]
  {
    assert [a][1..] == [];
    assert Text([]) == [];
  }

  lemma Answered(m: Machine, q: Quote, word: seq<Byte>)
    requires m.regs.quote == QuoteMark(q) && m.ignore == 0 && PlainWord(word)
    ensures var m2 := Spelled(Expecting(m, Std(3), word));
      Trip(Expecting(m, Std(3), word), word, m2, []) && m2.regs.state == Std(3) && m2.regs.quote == QuoteMark(q) && m2.ignore == 0 && OnlyRegs(m, m2)
  {
    Expected(m, Std(3), word);
    hide Trip;
  }

  lemma Answers(s: seq<Byte>)
    requires YesOrNo(s)
    ensures var yes := s == [0x79, 0x65, 0x73];
      var word: seq<Byte> := if yes then [0x65, 0x73] else [0x6F];
      s == [if yes then 0x79 else 0x6E] + word && PlainWord(word)
  {
  }

  lemma StandaloneIsRead(m: Machine, q: Quote, s: seq<Byte>) returns (m': Machine)
    requires m.regs.state == Std(1) && m.ignore == 0 && YesOrNo(s)
    ensures Trip(m, InQuotes(q, s), m', []) && OnlyRegs(m, m') && m'.regs.state == XmlDecl(8)
  {
    hide *;
    Answers(s);
    var yes := s == [0x79, 0x65, 0x73];
    var first, end := [if yes then 0x79 else 0x6E], [QuoteMark(q)];
    var word: seq<Byte> := if yes then [0x65, 0x73] else [0x6F];
    var m1 := m.(regs := m.regs.(state := Std(2), quote := QuoteMark(q)));
    var m2 := Expecting(m1, Std(3), word);
    var m3 := Spelled(m2);
    m' := InState(m3, XmlDecl(8));
    EncodingOpens(m, q);
    AnswerBegins(m1, yes);
    Answered(m1, q, word);
    ValueCloses(m3, q);
    QuoteStays(m3, XmlDecl(8));
    QuietFirst(m2, word, m3, end, m', []);
    QuietFirst(m1, first, m2, word + end, m', []);
    Assoc(first, word, end);
    QuietFirst(m, end, m1, s + end, m', []);
    QuotedIs(q, s);
    RegsAre(m, m1);
    RegsTwice(m, m1, m3);
    RegsTwice(m, m3, m');
  }

  // ---------------------------------------------------------------- settings

  lemma SettingText(name: seq<Byte>, s: Setting, first: Byte, word: seq<Byte>)
    requires name == [first] + word && GoodSetting(s)
    ensures s.space != [] && Blanks(s.space) && Blanks(s.left) && Blanks(s.right)
    ensures WriteSetting(name, s) ==
              s.space + (([first] + word) + ((s.left + ([0x3D] + s.right)) + InQuotes(s.quote, s.value)))
  {
    hide Blanks, InQuotes;
    Assoc(s.left, [0x3D] + s.right, InQuotes(s.quote, s.value));
    Assoc([0x3D], s.right, InQuotes(s.quote, s.value));
  }

  /** From the word on; m' is behind the equals sign. */
  lemma SettingBegins(m: Machine, s: Setting, first: Byte, word: seq<Byte>, next: St) returns (m': Machine)
    requires WordAt(m.regs.state, first, word, next) && m.ignore == 0 && Blanks(s.left) && Blanks(s.right)
    ensures Trip(m, ([first] + word) + (s.left + ([0x3D] + s.right)), m', []) && OnlyRegs(m, m') && m'.regs.state == EqualTo(next)
  {
    hide *;
    var m1 := WordIsRead(m, first, word, next);
    FieldsKept(m, m1);
    WordLeads(m.regs.state, first, word, next);
    EqualIsRead(m1, s.left, s.right);
    m' := InState(m1, EqualTo(next));
    StateIs(m1, EqualTo(next));
    RegsAre(m1, m');
    RegsTwice(m, m1, m');
    QuietFirst(m, [first] + word, m1, s.left + ([0x3D] + s.right), m', []);
  }

  lemma WordLeads(s: St, first: Byte, word: seq<Byte>, next: St)
    requires WordAt(s, first, word, next)
    ensures next == Ver(0) || next == Enc(0) || next == Std(0)
    ensures next == Ver(0) ==> EqualTo(next) == Ver(1)
    ensures next == Enc(0) ==> EqualTo(next) == Enc(1)
    ensures next == Std(0) ==> EqualTo(next) == Std(1)
  {
  }

  /** The first space behind a value. */
  function Beyond(s: St): St {
    if s == XmlDecl(4) then XmlDecl(5) else if s == XmlDecl(6) then XmlDecl(7) else s
  }

  lemma SpaceBeyond(m: Machine, c: Byte)
    requires (m.regs.state == XmlDecl(4) || m.regs.state == XmlDecl(6) || m.regs.state == XmlDecl(8)) && IsSP(c) && m.ignore == 0
    ensures Trip(m, [c], InState(m, Beyond(m.regs.state)), [])
  {
    SpaceIsPlain(c);
    if m.regs.state == XmlDecl(4) { EncodingRow(m.regs, c); } else { StandaloneRow(m.regs, c); }
    hide OnByte, Trip;
    Silent(m, c, InState(m, Beyond(m.regs.state)).regs);
  }

  lemma SpacesBeyond(m: Machine, w: seq<Byte>)
    requires (m.regs.state == XmlDecl(4) || m.regs.state == XmlDecl(6) || m.regs.state == XmlDecl(8)) && Blanks(w) && w != [] && m.ignore == 0
    ensures Trip(m, w, InState(m, Beyond(m.regs.state)), [])
  {
    hide *;
    var m1 := InState(m, Beyond(m.regs.state));
    FirstBlank(w);
    SpaceBeyond(m, w[0]);
    BeyondIdles(m.regs.state);
    StateIs(m, Beyond(m.regs.state));
    Waits(m1, w[1..]);
    QuietFirst(m, [w[0]], m1, w[1..], m1, []);
    assert [w[0]] + w[1..] == w;
  }

  lemma BeyondIdles(s: St)
    requires s == XmlDecl(4) || s == XmlDecl(6) || s == XmlDecl(8)
    ensures Idles(Beyond(s)) && Beyond(XmlDecl(4)) == XmlDecl(5) && Beyond(XmlDecl(6)) == XmlDecl(7)
  {
  }

  lemma EncodingSetting(m: Machine, s: Setting) returns (m': Machine)
    requires m.regs.state == XmlDecl(4) && m.ignore == 0 && GoodSetting(s) && GoodEncoding(s.value)
    ensures Trip(m, WriteSetting(ENCODING, s), m', []) && OnlyRegs(m, m') && m'.regs.state == XmlDecl(6)
  {
    hide *;
    Words();
    SettingText(ENCODING, s, 0x65, NCODING);
    BeyondIdles(XmlDecl(4));
    var m1 := InState(m, XmlDecl(5));
    SpacesBeyond(m, s.space);
    StateIs(m, XmlDecl(5));
    WordsFit();
    var m2 := SettingBegins(m1, s, 0x65, NCODING, Enc(0));
    FieldsKept(m1, m2);
    WordLeads(XmlDecl(5), 0x65, NCODING, Enc(0));
    m' := EncodingIsRead(m2, s.quote, s.value);
    SettingJoins(m, s, m1, [0x65] + NCODING, m2, m');
  }

  lemma WordsFit()
    ensures WordAt(XmlDecl(3), 0x76, ERSION, Ver(0)) && WordAt(XmlDecl(5), 0x65, NCODING, Enc(0))
    ensures WordAt(XmlDecl(5), 0x73, TANDALONE, Std(0)) && WordAt(XmlDecl(7), 0x73, TANDALONE, Std(0))
  {
  }

  lemma SettingJoins(m: Machine, s: Setting, m1: Machine, name: seq<Byte>, m2: Machine, m': Machine)
    requires Trip(m, s.space, m1, []) && Trip(m1, name + (s.left + ([0x3D] + s.right)), m2, [])
    requires Trip(m2, InQuotes(s.quote, s.value), m', []) && m1 == m.(regs := m1.regs) && OnlyRegs(m1, m2) && OnlyRegs(m2, m')
    ensures Trip(m, s.space + (name + ((s.left + ([0x3D] + s.right)) + InQuotes(s.quote, s.value))), m', []) && OnlyRegs(m, m')
  {
    hide *;
    var middle, value := s.left + ([0x3D] + s.right), InQuotes(s.quote, s.value);
    QuietFirst(m1, name + middle, m2, value, m', []);
    Assoc(name, middle, value);
    QuietFirst(m, s.space, m1, name + (middle + value), m', []);
    RegsAre(m, m1);
    RegsTwice(m, m1, m2);
    RegsTwice(m, m2, m');
  }

  lemma StandaloneSetting(m: Machine, s: Setting) returns (m': Machine)
    requires (m.regs.state == XmlDecl(4) || m.regs.state == XmlDecl(6)) && m.ignore == 0 && GoodSetting(s) && YesOrNo(s.value)
    ensures Trip(m, WriteSetting(STANDALONE, s), m', []) && OnlyRegs(m, m') && m'.regs.state == XmlDecl(8)
  {
    hide *;
    Words();
    SettingText(STANDALONE, s, 0x73, TANDALONE);
    BeyondIdles(m.regs.state);
    var m1 := InState(m, Beyond(m.regs.state));
    SpacesBeyond(m, s.space);
    StateIs(m, Beyond(m.regs.state));
    WordsFit();
    var m2 := SettingBegins(m1, s, 0x73, TANDALONE, Std(0));
    FieldsKept(m1, m2);
    WordLeads(m1.regs.state, 0x73, TANDALONE, Std(0));
    m' := StandaloneIsRead(m2, s.quote, s.value);
    SettingJoins(m, s, m1, [0x73] + TANDALONE, m2, m');
  }

  // ---------------------------------------------------------------- the end of the declaration

  lemma QuestionMark(m: Machine)
    requires m.ignore == 0
    requires m.regs.state == XmlDecl(4) || m.regs.state == XmlDecl(5) || m.regs.state == XmlDecl(6) || m.regs.state == XmlDecl(7) || m.regs.state == XmlDecl(8)
    ensures Trip(m, [0x3F], InState(m, XmlDecl(9)), [])
    ensures Trip(InState(m, XmlDecl(9)), [0x3E], InState(m, Misc(1)), [])
  {
    var m1 := InState(m, XmlDecl(9));
    if m.regs.state.n < 6 { EncodingRow(m.regs, 0x3F); } else { StandaloneRow(m.regs, 0x3F); }
    StandaloneRow(m1.regs, 0x3E);
    hide OnByte, Trip;
    Silent(m, 0x3F, m1.regs);
    Silent(m1, 0x3E, InState(m, Misc(1)).regs);
  }

  lemma DeclarationEnds(m: Machine, space: seq<Byte>) returns (m': Machine)
    requires (m.regs.state == XmlDecl(4) || m.regs.state == XmlDecl(6) || m.regs.state == XmlDecl(8)) && Blanks(space) && m.ignore == 0
    ensures Trip(m, space + [0x3F, 0x3E], m', []) && OnlyRegs(m, m') && m'.regs.state == Misc(1)
  {
    hide *;
    var m1 := if space == [] then m else InState(m, Beyond(m.regs.state));
    if space == [] {
      Nowhere(m);
    } else {
      SpacesBeyond(m, space);
      StateIs(m, Beyond(m.regs.state));
    }
    BeyondStates(m.regs.state);
    m' := InState(m1, Misc(1));
    QuestionMark(m1);
    StateIs(m1, Misc(1));
    QuietFirst(m1, [0x3F], InState(m1, XmlDecl(9)), [0x3E], m', []);
    assert [0x3F] + [0x3E] == [0x3F, 0x3E];
    QuietFirst(m, space, m1, [0x3F, 0x3E], m', []);
    SameRegs(m);
    RegsAre(m, m1);
    RegsAre(m1, m');
    RegsTwice(m, m1, m');
  }

  lemma BeyondStates(s: St)
    requires s == XmlDecl(4) || s == XmlDecl(6) || s == XmlDecl(8)
    ensures Beyond(s) == XmlDecl(5) || Beyond(s) == XmlDecl(7) || Beyond(s) == XmlDecl(8)
  {
  }

  // ---------------------------------------------------------------- the whole declaration

  lemma DeclarationParts(d: Declaration)
    requires GoodDeclaration(d)
    ensures GoodSetting(d.version) && GoodVersion(d.version.value) && Blanks(d.space)
    ensures d.version.space != [] && Blanks(d.version.space)
    ensures d.encoding.Some? ==> GoodSetting(d.encoding.value) && GoodEncoding(d.encoding.value.value)
    ensures d.standalone.Some? ==> GoodSetting(d.standalone.value) && YesOrNo(d.standalone.value.value)
    ensures WriteOptional(ENCODING, d.encoding) == if d.encoding.Some? then WriteSetting(ENCODING, d.encoding.value) else []
    ensures WriteOptional(STANDALONE, d.standalone) == if d.standalone.Some? then WriteSetting(STANDALONE, d.standalone.value) else []
    ensures WriteDeclaration(d) == [0x3C, 0x3F, 0x78, 0x6D, 0x6C] + (WriteSetting(VERSION, d.version) +
              (WriteOptional(ENCODING, d.encoding) + (WriteOptional(STANDALONE, d.standalone) + (d.space + [0x3F, 0x3E]))))
    ensures |WriteDeclaration(d)| >= 6
  {
    hide GoodVersion, GoodEncoding, YesOrNo, Blanks, WriteSetting;
  }

  /** The rest behind the version. */
  lemma OptionsAreRead(m: Machine, d: Declaration) returns (m': Machine)
    requires m.regs.state == XmlDecl(4) && m.ignore == 0 && GoodDeclaration(d)
    ensures Trip(m, WriteOptional(ENCODING, d.encoding) + (WriteOptional(STANDALONE, d.standalone) + (d.space + [0x3F, 0x3E])), m', [])
    ensures OnlyRegs(m, m') && m'.regs.state == Misc(1)
  {
    hide *;
    DeclarationParts(d);
    SameRegs(m);
    Nowhere(m);
    var m1 := m;
    if d.encoding.Some? { m1 := EncodingSetting(m, d.encoding.value); }
    FieldsKept(m, m1);
    SameRegs(m1);
    Nowhere(m1);
    var m2 := m1;
    if d.standalone.Some? { m2 := StandaloneSetting(m1, d.standalone.value); }
    FieldsKept(m1, m2);
    m' := DeclarationEnds(m2, d.space);
    QuietFirst(m1, WriteOptional(STANDALONE, d.standalone), m2, d.space + [0x3F, 0x3E], m', []);
    QuietFirst(m, WriteOptional(ENCODING, d.encoding), m1, WriteOptional(STANDALONE, d.standalone) + (d.space + [0x3F, 0x3E]), m', []);
    RegsTwice(m, m1, m2);
    RegsTwice(m, m2, m');
  }

  lemma FiveParts(open: seq<Byte>, space: seq<Byte>, name: seq<Byte>, middle: seq<Byte>, value: seq<Byte>, rest: seq<Byte>)
    requires space != []
    ensures open + ((space + (name + (middle + value))) + rest)
      == (open + [space[0]]) + (space[1..] + ((name + middle) + (value + rest)))
  {
    var first, more := [space[0]], space[1..];
    assert space == first + more;
    Assoc(first, more, name + (middle + value));
    Assoc(first, more + (name + (middle + value)), rest);
    Assoc(open, first, (more + (name + (middle + value))) + rest);
    Assoc(more, name + (middle + value), rest);
    Assoc(name, middle, value);
    Assoc(name + middle, value, rest);
  }

  lemma VersionText(s: Setting, open: seq<Byte>, rest: seq<Byte>)
    requires GoodSetting(s)
    ensures open + (WriteSetting(VERSION, s) + rest) ==
      (open + [s.space[0]]) + (s.space[1..] + ((([0x76] + ERSION) + (s.left + ([0x3D] + s.right))) + (InQuotes(s.quote, s.value) + rest)))
  {
    Words();
    SettingText(VERSION, s, 0x76, ERSION);
    FiveParts(open, s.space, [0x76] + ERSION, s.left + ([0x3D] + s.right), InQuotes(s.quote, s.value), rest);
    hide *;
  }

  lemma DeclarationIsRead(m: Machine, d: Declaration) returns (m': Machine)
    requires (m.regs.state == Init || m.regs.state == Misc(0)) && At(m, m.regs.state, []) && GoodDeclaration(d)
    requires Roomy(m, |WriteDeclaration(d)|)
    ensures Trip(m, WriteDeclaration(d), m', []) && At(m', Misc(1), []) && m'.room == m.room
  {
    hide *;
    DeclarationParts(d);
    var s := d.version;
    var open: seq<Byte> := [0x3C, 0x3F, 0x78, 0x6D, 0x6C];
    var rest := WriteOptional(ENCODING, d.encoding) + (WriteOptional(STANDALONE, d.standalone) + (d.space + [0x3F, 0x3E]));
    var name, middle, value := [0x76] + ERSION, s.left + ([0x3D] + s.right), InQuotes(s.quote, s.value);
    Words();
    SettingText(VERSION, s, 0x76, ERSION);
    VersionText(s, open, rest);
    LessRoom(m, |WriteDeclaration(d)|, 6);
    FirstBlank(s.space);
    var m1 := XmlOpens(m, s.space[0]);
    AtFields(m1, XmlDecl(3), []);
    EqualIdles(Ver(0));
    BlankTail(s.space);
    Waits(m1, s.space[1..]);
    WordsFit();
    var m2 := SettingBegins(m1, s, 0x76, ERSION, Ver(0));
    WordLeads(XmlDecl(3), 0x76, ERSION, Ver(0));
    FieldsKept(m1, m2);
    var m3 := VersionIsRead(m2, s.quote, s.value);
    FieldsKept(m2, m3);
    m' := OptionsAreRead(m3, d);
    QuietFirst(m2, value, m3, rest, m', []);
    QuietFirst(m1, name + middle, m2, value + rest, m', []);
    QuietFirst(m1, s.space[1..], m1, (name + middle) + (value + rest), m', []);
    QuietFirst(m, open + [s.space[0]], m1, s.space[1..] + ((name + middle) + (value + rest)), m', []);
    RegsTwice(m1, m2, m3);
    RegsTwice(m1, m3, m');
    StillAt(m1, m', Misc(1), []);
  }

  lemma BlankTail(w: seq<Byte>)
    requires Blanks(w) && w != []
    ensures Blanks(w[1..])
  {
  }
}
