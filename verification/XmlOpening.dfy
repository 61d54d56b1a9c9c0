// The XML declaration, found in front of a text that the XML parser takes to the end.
module XmlOpening {
  import opened Bytes
  import opened Options
  import opened Sequences
  import opened XmlStates
  import opened XmlAutomaton
  import opened XmlDocuments
  import opened XmlTaken
  import opened XmlSteps
  import opened XmlRuns
  import opened XmlMarkup
  import opened XmlInstructions
  import opened XmlElements
  import opened XmlProlog
  import opened XmlDeclaration
  import opened XmlReading
  import opened XmlFinding

  // ---------------------------------------------------------------- what the states ask for

  lemma DeclReacts(r: Regs, c: Byte)
    requires r.state.XmlDecl? && r.state.n > 2 && OnByte(r, c).React? && !IsSP(c)
    ensures r.state.n == 3 ==> c == 0x76
    ensures r.state.n == 4 || r.state.n == 6 || r.state.n == 8 ==> c == 0x3F
    ensures r.state.n == 5 ==> c == 0x3F || c == 0x65 || c == 0x73
    ensures r.state.n == 7 ==> c == 0x3F || c == 0x73
    ensures r.state.n == 9 ==> c == 0x3E
  {
    if r.state.n == 3 { VersionRow(r, c); } else if r.state.n < 6 { EncodingRow(r, c); } else { StandaloneRow(r, c); }
    hide OnByte, IsSP, Text;
  }

  lemma LastReacts(r: Regs, c: Byte)
    requires r.state == XmlDecl(9) && OnByte(r, c).React?
    ensures c == 0x3E
  {
    StandaloneRow(r, c);
    hide OnByte;
  }

  lemma EqualReacts(r: Regs, c: Byte)
    requires (r.state == Ver(0) || r.state == Enc(0) || r.state == Std(0)) && OnByte(r, c).React? && !IsSP(c)
    ensures c == 0x3D
  {
    if r.state.Ver? { VersionRow(r, c); } else if r.state.Enc? { EncodingRow(r, c); } else { StandaloneRow(r, c); }
    hide OnByte, IsSP;
  }

  lemma QuoteReacts(r: Regs, c: Byte)
    requires (r.state == Ver(1) || r.state == Enc(1) || r.state == Std(1)) && OnByte(r, c).React? && !IsSP(c)
    ensures c == 0x27 || c == 0x22
  {
    if r.state.Ver? { VersionRow(r, c); } else if r.state.Enc? { EncodingRow(r, c); } else { StandaloneRow(r, c); }
    hide OnByte, IsSP, Text;
  }

  lemma VersionReacts(r: Regs, c: Byte)
    requires (r.state == Ver(2) || r.state == Ver(3)) && OnByte(r, c).React?
    ensures Digit(c) || (r.state == Ver(3) && c == r.quote)
  {
    VersionRow(r, c);
    hide OnByte;
  }

  lemma EncodingValueReacts(r: Regs, c: Byte)
    requires (r.state == Enc(2) || r.state == Enc(3)) && OnByte(r, c).React?
    ensures r.state == Enc(2) ==> Letter(c)
    ensures r.state == Enc(3) ==> EncodingByte(c) || c == r.quote
  {
    EncodingRow(r, c);
    hide OnByte;
  }

  lemma AnswerReacts(r: Regs, c: Byte)
    requires (r.state == Std(2) || r.state == Std(3)) && OnByte(r, c).React?
    ensures r.state == Std(2) ==> c == 0x79 || c == 0x6E
    ensures r.state == Std(3) ==> c == r.quote
  {
    StandaloneRow(r, c);
    hide OnByte, Text;
  }

  // ---------------------------------------------------------------- settings

  /** A word, the equals sign and the white space around it. */
  lemma FindAssigned(m: Machine, t: seq<Byte>, first: Byte, word: seq<Byte>, next: St)
    returns (left: seq<Byte>, right: seq<Byte>, m': Machine, rest: seq<Byte>)
    requires WordAt(m.regs.state, first, word, next) && Left(m, t) && t != [] && t[0] == first
    ensures t == (([first] + word) + (left + ([0x3D] + right))) + rest && Blanks(left) && Blanks(right)
    ensures OnlyRegs(m, m') && m'.regs.state == EqualTo(next) && Left(m', rest) && (rest != [] ==> !IsSP(rest[0]))
  {
    hide *;
    RoomOf(m, t, 0);
    WordBegins(m, first, word, next);
    WordLeads(m.regs.state, first, word, next);
    var m1 := Expecting(m, next, word);
    FirstAndRest(t);
    AwaitsWord(m, next, word);
    LeftAfter(m, [first], m1, [], t[1..]);
    var u := FindWord(m1, t[1..]);
    var m2 := WordIsRead(m, first, word, next);
    FieldsKept(m, m2);
    Assoc([first], word, u);
    LeftAfter(m, [first] + word, m2, [], u);
    EqualIdles(next);
    var v;
    left, v := FindBlanks(u);
    Waits(m2, left);
    LeftAfter(m2, left, m2, [], v);
    MustGo(m2, v);
    EqualReacts(m2.regs, v[0]);
    FirstAndRest(v);
    EqualByte(m2);
    var m3 := InState(m2, EqualTo(next));
    StateIs(m2, EqualTo(next));
    LeftAfter(m2, [0x3D], m3, [], v[1..]);
    right, rest := FindBlanks(v[1..]);
    Waits(m3, right);
    LeftAfter(m3, right, m3, [], rest);
    m' := m3;
    RegsAre(m2, m3);
    RegsTwice(m, m2, m3);
    AssignedJoins([first] + word, left, right, rest);
  }

  lemma AwaitsWord(m: Machine, next: St, word: seq<Byte>)
    ensures var m' := Expecting(m, next, word); m'.regs.state == StString && m'.regs.literal == word && m'.ignore == m.ignore
  {
  }

  lemma AssignedJoins(name: seq<Byte>, left: seq<Byte>, right: seq<Byte>, rest: seq<Byte>)
    ensures name + (left + ([0x3D] + (right + rest))) == (name + (left + ([0x3D] + right))) + rest
  {
    Assoc([0x3D], right, rest);
    Assoc(left, [0x3D] + right, rest);
    Assoc(name, left + ([0x3D] + right), rest);
  }

  lemma {:induction false} FindDigits(m: Machine, q: Quote, t: seq<Byte>) returns (s: seq<Byte>, rest: seq<Byte>)
    requires m.regs.state == Ver(3) && m.regs.quote == QuoteMark(q) && Left(m, t)
    ensures t == s + ([QuoteMark(q)] + rest) && forall i :: 0 <= i < |s| ==> Digit(s[i])
    decreases |t|
  {
    hide *;
    RoomOf(m, t, 0);
    MustGo(m, t);
    VersionReacts(m.regs, t[0]);
    FirstAndRest(t);
    if t[0] == QuoteMark(q) {
      s, rest := [], t[1..];
      NoPrefix(t);
    } else {
      DigitByte(m, t[0]);
      SameState(m);
      LeftAfter(m, [t[0]], m, [], t[1..]);
      s, rest := FindDigits(m, q, t[1..]);
      Assoc([t[0]], s, [QuoteMark(q)] + rest);
      s := [t[0]] + s;
    }
  }

  lemma IsVersion(c: Byte, s: seq<Byte>)
    requires Digit(c) && forall i :: 0 <= i < |s| ==> Digit(s[i])
    ensures GoodVersion([0x31, 0x2E] + ([c] + s))
  {
  }

  /** A quoted version. */
  lemma FindVersion(m: Machine, t: seq<Byte>) returns (q: Quote, s: seq<Byte>, rest: seq<Byte>)
    requires m.regs.state == Ver(1) && Left(m, t) && (t != [] ==> !IsSP(t[0]))
    ensures t == InQuotes(q, s) + rest && GoodVersion(s)
  {
    hide *;
    RoomOf(m, t, 0);
    MustGo(m, t);
    QuoteReacts(m.regs, t[0]);
    FirstAndRest(t);
    q := QuoteOf(t[0]);
    QuoteOfIs(t[0]);
    VersionOpens(m, q);
    var dotted := m.(regs := m.regs.(quote := QuoteMark(q)));
    var m1 := Expecting(dotted, Ver(2), [0x31, 0x2E]);
    AwaitsWord(dotted, Ver(2), [0x31, 0x2E]);
    LeftAfter(m, [t[0]], m1, [], t[1..]);
    DotIsPlain();
    var u := FindWord(m1, t[1..]);
    Dotted(m, q);
    var m2 := Spelled(m1);
    LeftAfter(m1, [0x31, 0x2E], m2, [], u);
    MustGo(m2, u);
    VersionReacts(m2.regs, u[0]);
    FirstAndRest(u);
    DigitByte(m2, u[0]);
    var m3 := InState(m2, Ver(3));
    QuoteStays(m2, Ver(3));
    LeftAfter(m2, [u[0]], m3, [], u[1..]);
    var digits;
    digits, rest := FindDigits(m3, q, u[1..]);
    IsVersion(u[0], digits);
    s := [0x31, 0x2E] + ([u[0]] + digits);
    var end := [QuoteMark(q)] + rest;
    Assoc([u[0]], digits, end);
    Assoc([0x31, 0x2E], [u[0]] + digits, end);
    QuotedJoins(q, s, rest);
  }

  lemma DotIsPlain()
    ensures NUL !in [0x31, 0x2E] && 13 !in [0x31, 0x2E]
  {
  }

  lemma {:induction false} FindEncodingBytes(m: Machine, q: Quote, t: seq<Byte>) returns (s: seq<Byte>, rest: seq<Byte>)
    requires m.regs.state == Enc(3) && m.regs.quote == QuoteMark(q) && Left(m, t)
    ensures t == s + ([QuoteMark(q)] + rest) && forall i :: 0 <= i < |s| ==> EncodingByte(s[i])
    decreases |t|
  {
    hide *;
    RoomOf(m, t, 0);
    MustGo(m, t);
    EncodingValueReacts(m.regs, t[0]);
    FirstAndRest(t);
    if t[0] == QuoteMark(q) {
      s, rest := [], t[1..];
      NoPrefix(t);
    } else {
      EncodingStep(m, t[0]);
      SameState(m);
      LeftAfter(m, [t[0]], m, [], t[1..]);
      s, rest := FindEncodingBytes(m, q, t[1..]);
      Assoc([t[0]], s, [QuoteMark(q)] + rest);
      s := [t[0]] + s;
    }
  }

  lemma IsEncoding(c: Byte, s: seq<Byte>)
    requires Letter(c) && forall i :: 0 <= i < |s| ==> EncodingByte(s[i])
    ensures GoodEncoding([c] + s)
  {
    forall i | 1 <= i < |[c] + s|
      ensures EncodingByte(([c] + s)[i])
    {
      assert ([c] + s)[i] == s[i - 1];
    }
  }

  lemma FindEncoding(m: Machine, t: seq<Byte>) returns (q: Quote, s: seq<Byte>, rest: seq<Byte>)
    requires m.regs.state == Enc(1) && Left(m, t) && (t != [] ==> !IsSP(t[0]))
    ensures t == InQuotes(q, s) + rest && GoodEncoding(s)
  {
    hide *;
    RoomOf(m, t, 0);
    MustGo(m, t);
    QuoteReacts(m.regs, t[0]);
    FirstAndRest(t);
    q := QuoteOf(t[0]);
    QuoteOfIs(t[0]);
    EncodingOpens(m, q);
    var m1 := m.(regs := m.regs.(state := Enc(2), quote := QuoteMark(q)));
    LeftAfter(m, [t[0]], m1, [], t[1..]);
    var u := t[1..];
    MustGo(m1, u);
    EncodingValueReacts(m1.regs, u[0]);
    FirstAndRest(u);
    EncodingStep(m1, u[0]);
    var m2 := InState(m1, Enc(3));
    QuoteStays(m1, Enc(3));
    LeftAfter(m1, [u[0]], m2, [], u[1..]);
    var more;
    more, rest := FindEncodingBytes(m2, q, u[1..]);
    IsEncoding(u[0], more);
    s := [u[0]] + more;
    Assoc([u[0]], more, [QuoteMark(q)] + rest);
    QuotedJoins(q, s, rest);
  }

  lemma AnswerWords(yes: bool)
    ensures var word: seq<Byte> := if yes then [0x65, 0x73] else [0x6F];
      PlainWord(word) && YesOrNo([if yes then 0x79 else 0x6E] + word)
  {
  }

  lemma FindAnswer(m: Machine, t: seq<Byte>) returns (q: Quote, s: seq<Byte>, rest: seq<Byte>)
    requires m.regs.state == Std(1) && Left(m, t) && (t != [] ==> !IsSP(t[0]))
    ensures t == InQuotes(q, s) + rest && YesOrNo(s)
  {
    hide *;
    RoomOf(m, t, 0);
    MustGo(m, t);
    QuoteReacts(m.regs, t[0]);
    FirstAndRest(t);
    q := QuoteOf(t[0]);
    QuoteOfIs(t[0]);
    EncodingOpens(m, q);
    var m1 := m.(regs := m.regs.(state := Std(2), quote := QuoteMark(q)));
    LeftAfter(m, [t[0]], m1, [], t[1..]);
    var u := t[1..];
    MustGo(m1, u);
    AnswerReacts(m1.regs, u[0]);
    FirstAndRest(u);
    var yes := u[0] == 0x79;
    var word: seq<Byte> := if yes then [0x65, 0x73] else [0x6F];
    AnswerWords(yes);
    Plain13(word);
    AnswerBegins(m1, yes);
    var m2 := Expecting(m1, Std(3), word);
    AwaitsWord(m1, Std(3), word);
    LeftAfter(m1, [u[0]], m2, [], u[1..]);
    var v := FindWord(m2, u[1..]);
    Answered(m1, q, word);
    var m3 := Spelled(m2);
    LeftAfter(m2, word, m3, [], v);
    MustGo(m3, v);
    AnswerReacts(m3.regs, v[0]);
    FirstAndRest(v);
    s, rest := [u[0]] + word, v[1..];
    Assoc([u[0]], word, [QuoteMark(q)] + rest);
    QuotedJoins(q, s, rest);
  }

  // ---------------------------------------------------------------- the end of the declaration

  /** "?>" */
  lemma FindClose(m: Machine, t: seq<Byte>) returns (rest: seq<Byte>)
    requires m.regs.state == XmlDecl(4) || m.regs.state == XmlDecl(5) || m.regs.state == XmlDecl(6) || m.regs.state == XmlDecl(7)
      || m.regs.state == XmlDecl(8)
    requires Left(m, t) && t != [] && t[0] == 0x3F
    ensures t == [0x3F, 0x3E] + rest
  {
    hide *;
    RoomOf(m, t, 0);
    QuestionMark(m);
    FirstAndRest(t);
    var m1 := InState(m, XmlDecl(9));
    StateIs(m, XmlDecl(9));
    LeftAfter(m, [0x3F], m1, [], t[1..]);
    MustGo(m1, t[1..]);
    LastReacts(m1.regs, t[1..][0]);
    TwoAndRest(t);
    rest := t[2..];
  }

  lemma SettingAndRest(name: seq<Byte>, s: Setting, first: Byte, word: seq<Byte>, rest: seq<Byte>)
    requires name == [first] + word && GoodSetting(s)
    ensures WriteSetting(name, s) + rest ==
      s.space + ((([first] + word) + (s.left + ([0x3D] + s.right))) + (InQuotes(s.quote, s.value) + rest))
  {
    SettingText(name, s, first, word);
    hide *;
    var middle, value := s.left + ([0x3D] + s.right), InQuotes(s.quote, s.value);
    Assoc([first] + word, middle, value);
    Assoc(([first] + word) + middle, value, rest);
    Assoc(s.space, (([first] + word) + middle) + value, rest);
  }

  lemma IsSetting(s: Setting)
    requires s.space != [] && Blanks(s.space) && Blanks(s.left) && Blanks(s.right)
    ensures GoodSetting(s)
  {
  }

  /** Behind the white space w: the setting "standalone". */
  lemma FindStandalone(m: Machine, w: seq<Byte>, t: seq<Byte>) returns (s: Setting, m': Machine, rest: seq<Byte>)
    requires (m.regs.state == XmlDecl(5) || m.regs.state == XmlDecl(7)) && Left(m, t) && t != [] && t[0] == 0x73 && w != [] && Blanks(w)
    ensures w + t == WriteSetting(STANDALONE, s) + rest && GoodSetting(s) && YesOrNo(s.value)
    ensures m'.regs.state == XmlDecl(8) && Left(m', rest)
  {
    hide *;
    Words();
    WordsFit();
    RoomOf(m, t, 0);
    var left, right, m1, u := FindAssigned(m, t, 0x73, TANDALONE, Std(0));
    FieldsKept(m, m1);
    WordLeads(m.regs.state, 0x73, TANDALONE, Std(0));
    var q, value;
    q, value, rest := FindAnswer(m1, u);
    s := Setting(w, left, right, q, value);
    IsSetting(s);
    m' := StandaloneIsRead(m1, q, value);
    FieldsKept(m1, m');
    LeftAfter(m1, InQuotes(q, value), m', [], rest);
    SettingAndRest(STANDALONE, s, 0x73, TANDALONE, rest);
  }

  lemma FindEncodingSetting(m: Machine, w: seq<Byte>, t: seq<Byte>) returns (s: Setting, m': Machine, rest: seq<Byte>)
    requires m.regs.state == XmlDecl(5) && Left(m, t) && t != [] && t[0] == 0x65 && w != [] && Blanks(w)
    ensures w + t == WriteSetting(ENCODING, s) + rest && GoodSetting(s) && GoodEncoding(s.value)
    ensures m'.regs.state == XmlDecl(6) && Left(m', rest)
  {
    hide *;
    Words();
    WordsFit();
    RoomOf(m, t, 0);
    var left, right, m1, u := FindAssigned(m, t, 0x65, NCODING, Enc(0));
    FieldsKept(m, m1);
    WordLeads(m.regs.state, 0x65, NCODING, Enc(0));
    var q, value;
    q, value, rest := FindEncoding(m1, u);
    s := Setting(w, left, right, q, value);
    IsSetting(s);
    m' := EncodingIsRead(m1, q, value);
    FieldsKept(m1, m');
    LeftAfter(m1, InQuotes(q, value), m', [], rest);
    SettingAndRest(ENCODING, s, 0x65, NCODING, rest);
  }

  /** White space and the machine behind it. */
  lemma FindGap(m: Machine, t: seq<Byte>) returns (w: seq<Byte>, m': Machine, rest: seq<Byte>)
    requires (m.regs.state == XmlDecl(4) || m.regs.state == XmlDecl(6) || m.regs.state == XmlDecl(8)) && Left(m, t)
    ensures t == w + rest && Blanks(w) && rest != [] && Left(m', rest)
    ensures m'.regs.state == if w == [] then m.regs.state else Beyond(m.regs.state)
    ensures OnByte(m'.regs, rest[0]).React? && !IsSP(rest[0])
  {
    hide *;
    RoomOf(m, t, 0);
    w, rest := FindBlanks(t);
    m' := m;
    if w == [] {
      NoPrefix(rest);
    } else {
      m' := InState(m, Beyond(m.regs.state));
      SpacesBeyond(m, w);
      StateIs(m, Beyond(m.regs.state));
      LeftAfter(m, w, m', [], rest);
    }
    BeyondStates(m.regs.state);
    MustGo(m', rest);
  }

  /** The settings behind the version, and the end. */
  lemma FindSettings(m: Machine, t: seq<Byte>) returns (encoding: Option<Setting>, standalone: Option<Setting>, space: seq<Byte>, rest: seq<Byte>)
    requires m.regs.state == XmlDecl(4) && Left(m, t)
    ensures t == WriteOptional(ENCODING, encoding) + (WriteOptional(STANDALONE, standalone) + (space + ([0x3F, 0x3E] + rest)))
    ensures encoding.Some? ==> GoodSetting(encoding.value) && GoodEncoding(encoding.value.value)
    ensures standalone.Some? ==> GoodSetting(standalone.value) && YesOrNo(standalone.value.value)
    ensures Blanks(space)
  {
    hide *;
    var w, m1, u := FindGap(m, t);
    BeyondIdles(XmlDecl(4));
    DeclReacts(m1.regs, u[0]);
    if u[0] == 0x65 {
      var s, m2, v := FindEncodingSetting(m1, w, u);
      encoding := Some(s);
      standalone, space, rest := FindMore(m2, v);
      OptionIs(ENCODING, encoding);
      Assoc(WriteSetting(ENCODING, s), WriteOptional(STANDALONE, standalone), space + ([0x3F, 0x3E] + rest));
    } else {
      encoding := None;
      OptionIs(ENCODING, encoding);
      standalone, space, rest := FindRest(m1, w, u);
      NoPrefix(t);
    }
  }

  lemma OptionIs(name: seq<Byte>, s: Option<Setting>)
    ensures WriteOptional(name, s) == if s.Some? then WriteSetting(name, s.value) else []
  {
    hide WriteSetting;
  }

  /** Behind the encoding. */
  lemma FindMore(m: Machine, t: seq<Byte>) returns (standalone: Option<Setting>, space: seq<Byte>, rest: seq<Byte>)
    requires m.regs.state == XmlDecl(6) && Left(m, t)
    ensures t == WriteOptional(STANDALONE, standalone) + (space + ([0x3F, 0x3E] + rest)) && Blanks(space)
    ensures standalone.Some? ==> GoodSetting(standalone.value) && YesOrNo(standalone.value.value)
  {
    hide *;
    var w, m1, u := FindGap(m, t);
    BeyondIdles(XmlDecl(6));
    DeclReacts(m1.regs, u[0]);
    standalone, space, rest := FindRest(m1, w, u);
  }

  lemma FindRest(m: Machine, w: seq<Byte>, u: seq<Byte>) returns (standalone: Option<Setting>, space: seq<Byte>, rest: seq<Byte>)
    requires (w == [] && (m.regs.state == XmlDecl(4) || m.regs.state == XmlDecl(6)))
      || (w != [] && (m.regs.state == XmlDecl(5) || m.regs.state == XmlDecl(7)))
    requires Left(m, u) && u != [] && Blanks(w) && (u[0] == 0x3F || (w != [] && u[0] == 0x73))
    ensures w + u == WriteOptional(STANDALONE, standalone) + (space + ([0x3F, 0x3E] + rest)) && Blanks(space)
    ensures standalone.Some? ==> GoodSetting(standalone.value) && YesOrNo(standalone.value.value)
  {
    hide *;
    if u[0] == 0x3F {
      standalone, space := None, w;
      rest := FindClose(m, u);
      OptionIs(STANDALONE, standalone);
      NoPrefix(w + u);
    } else {
      var s, m1, v := FindStandalone(m, w, u);
      standalone := Some(s);
      OptionIs(STANDALONE, standalone);
      var m2, x;
      space, m2, x := FindGap(m1, v);
      BeyondEight();
      DeclReacts(m2.regs, x[0]);
      rest := FindClose(m2, x);
    }
  }

  lemma BeyondEight()
    ensures Beyond(XmlDecl(8)) == XmlDecl(8)
  {
  }

  // ---------------------------------------------------------------- the whole declaration

  lemma DeclarationIs(d: Declaration)
    requires GoodSetting(d.version) && GoodVersion(d.version.value) && Blanks(d.space)
    requires d.encoding.Some? ==> GoodSetting(d.encoding.value) && GoodEncoding(d.encoding.value.value)
    requires d.standalone.Some? ==> GoodSetting(d.standalone.value) && YesOrNo(d.standalone.value.value)
    ensures GoodDeclaration(d)
  {
    hide GoodSetting, GoodVersion, GoodEncoding, YesOrNo, Blanks;
  }

  lemma DeclarationJoins(d: Declaration, rest: seq<Byte>)
    ensures WriteDeclaration(d) + rest == [0x3C, 0x3F, 0x78, 0x6D, 0x6C] + (WriteSetting(VERSION, d.version) +
      (WriteOptional(ENCODING, d.encoding) + (WriteOptional(STANDALONE, d.standalone) + (d.space + ([0x3F, 0x3E] + rest)))))
  {
    var start: seq<Byte> := [0x3C, 0x3F, 0x78, 0x6D, 0x6C];
    var version, encoding, standalone := WriteSetting(VERSION, d.version), WriteOptional(ENCODING, d.encoding), WriteOptional(STANDALONE, d.standalone);
    var end: seq<Byte> := [0x3F, 0x3E];
    DeclarationText(d);
    hide *;
    Assoc(d.space, end, rest);
    Assoc(standalone, d.space + end, rest);
    Assoc(encoding, standalone + (d.space + end), rest);
    Assoc(version, encoding + (standalone + (d.space + end)), rest);
    Assoc(start, version + (encoding + (standalone + (d.space + end))), rest);
  }

  lemma DeclarationText(d: Declaration)
    ensures WriteDeclaration(d) == [0x3C, 0x3F, 0x78, 0x6D, 0x6C] + (WriteSetting(VERSION, d.version) +
      (WriteOptional(ENCODING, d.encoding) + (WriteOptional(STANDALONE, d.standalone) + (d.space + [0x3F, 0x3E]))))
  {
    hide WriteSetting, WriteOptional;
  }

  lemma BlankBehind(c: Byte, w: seq<Byte>)
    requires IsSP(c) && Blanks(w)
    ensures Blanks([c] + w) && [c] + w != []
  {
  }

  lemma FindDeclaration(m: Machine, c: Byte, t: seq<Byte>) returns (d: Declaration, rest: seq<Byte>)
    requires (m.regs.state == Init || m.regs.state == Misc(0)) && At(m, m.regs.state, []) && IsSP(c)
    requires Left(m, [0x3C, 0x3F, 0x78, 0x6D, 0x6C] + ([c] + t))
    ensures [0x3C, 0x3F, 0x78, 0x6D, 0x6C] + ([c] + t) == WriteDeclaration(d) + rest && GoodDeclaration(d)
  {
    hide *;
    var start: seq<Byte> := [0x3C, 0x3F, 0x78, 0x6D, 0x6C];
    RoomOf(m, start + ([c] + t), 6);
    var m1 := XmlOpens(m, c);
    AtFields(m1, XmlDecl(3), []);
    Assoc(start, [c], t);
    LeftAfter(m, start + [c], m1, [], t);
    var w, u := FindBlanks(t);
    EqualIdles(Ver(0));
    Waits(m1, w);
    LeftAfter(m1, w, m1, [], u);
    MustGo(m1, u);
    DeclReacts(m1.regs, u[0]);
    Words();
    WordsFit();
    var left, right, m2, v := FindAssigned(m1, u, 0x76, ERSION, Ver(0));
    FieldsKept(m1, m2);
    WordLeads(XmlDecl(3), 0x76, ERSION, Ver(0));
    var q, value, x := FindVersion(m2, v);
    var s := Setting([c] + w, left, right, q, value);
    BlankBehind(c, w);
    IsSetting(s);
    var m3 := VersionIsRead(m2, q, value);
    FieldsKept(m2, m3);
    LeftAfter(m2, InQuotes(q, value), m3, [], x);
    var encoding, standalone, space;
    encoding, standalone, space, rest := FindSettings(m3, x);
    d := Declaration(s, encoding, standalone, space);
    DeclarationIs(d);
    DeclarationJoins(d, rest);
    SettingAndRest(VERSION, s, 0x76, ERSION, x);
    Assoc([c], w, u);
  }
}
