// Runs of the XML automaton: how they are put together, and what each byte does in the states that the grammar of XML
// goes through.
module XmlSteps {
  import opened Bytes
  import opened Sequences
  import opened XmlStates
  import opened XmlAutomaton
  import opened XmlDocuments

  // ---------------------------------------------------------------- what is reported along the way

  /** What one byte reports. */
  function Told(m: Machine, b: Byte): seq<Report> {
    var ret := Step(m, b).ret;
    if ret == Ok || Negative(ret) then []
    else if ret == Content || ret == AttrVal || ret == PiContent then Data(ret, Said(m, b))
    else [Mark(ret, Said(m, b))]
  }

  /** What is reported up to the first error. */
  function Heard(room: nat, bytes: seq<Byte>): seq<Report> {
    if bytes == [] then []
    else
      var front := bytes[..|bytes| - 1];
      Heard(room, front) + if Negative(Feed(room, front).ret) then [] else Told(Feed(room, front).m, bytes[|bytes| - 1])
  }

  datatype Way = Way(ok: bool, m: Machine, told: seq<Report>)

  function Go(m: Machine, bytes: seq<Byte>): Way
    decreases |bytes|
  {
    if bytes == [] then Way(true, m, [])
    else
      var o := Step(m, bytes[0]);
      if Negative(o.ret) then Way(false, m, [])
      else
        var w := Go(o.m, bytes[1..]);
        Way(w.ok, w.m, Told(m, bytes[0]) + w.told)
  }

  /** The bytes are taken without an error and lead from m to m'. */
  ghost predicate Trip(m: Machine, bytes: seq<Byte>, m': Machine, told: seq<Report>) {
    Go(m, bytes) == Way(true, m', told)
  }

  lemma Nowhere(m: Machine)
    ensures Trip(m, [], m, [])
  {
  }

  lemma {:induction false} Join(m: Machine, a: seq<Byte>, m1: Machine, out1: seq<Report>, b: seq<Byte>, m2: Machine, out2: seq<Report>)
    requires Trip(m, a, m1, out1) && Trip(m1, b, m2, out2)
    ensures Trip(m, a + b, m2, out1 + out2)
    decreases |a|
  {
    hide Step, Told;
    if a == [] {
      NoPrefix(b);
      NoPrefix(out2);
    } else {
      var o := Step(m, a[0]);
      var w := Go(o.m, a[1..]);
      Join(o.m, a[1..], m1, w.told, b, m2, out2);
      assert (a + b)[0] == a[0] && (a + b)[1..] == a[1..] + b;
      Assoc(Told(m, a[0]), w.told, out2);
    }
  }

  /** A first part that reports nothing. */
  lemma QuietFirst(m: Machine, a: seq<Byte>, m1: Machine, b: seq<Byte>, m2: Machine, out: seq<Report>)
    requires Trip(m, a, m1, []) && Trip(m1, b, m2, out)
    ensures Trip(m, a + b, m2, out)
  {
    hide *;
    Join(m, a, m1, [], b, m2, out);
    NoPrefix(out);
  }

  /** A second part that reports nothing. */
  lemma QuietLast(m: Machine, a: seq<Byte>, m1: Machine, out: seq<Report>, b: seq<Byte>, m2: Machine)
    requires Trip(m, a, m1, out) && Trip(m1, b, m2, [])
    ensures Trip(m, a + b, m2, out)
  {
    hide *;
    Join(m, a, m1, out, b, m2, []);
    NoSuffix(out);
  }

  lemma {:induction false} FeedsOn(room: nat, done: seq<Byte>, bytes: seq<Byte>, m': Machine, told: seq<Report>)
    requires !Negative(Feed(room, done).ret) && Trip(Feed(room, done).m, bytes, m', told)
    ensures !Negative(Feed(room, done + bytes).ret) && Feed(room, done + bytes).m == m'
    ensures Heard(room, done + bytes) == Heard(room, done) + told
    decreases |bytes|
  {
    hide Step, Told, Feed;
    if bytes == [] {
      NoSuffix(done);
      NoSuffix(Heard(room, done));
    } else {
      var m := Feed(room, done).m;
      var o := Step(m, bytes[0]);
      var w := Go(o.m, bytes[1..]);
      FeedNext(room, done, bytes[0]);
      assert (done + [bytes[0]])[..|done|] == done;
      FeedsOn(room, done + [bytes[0]], bytes[1..], m', w.told);
      assert done + [bytes[0]] + bytes[1..] == done + bytes;
      Assoc(Heard(room, done), Told(m, bytes[0]), w.told);
    }
  }

  // ---------------------------------------------------------------- room on the stack

  /** There is room for that many bytes more, whatever they are. */
  predicate Roomy(m: Machine, n: nat) {
    Depth(m) + 2 * n + 2 < m.room
  }

  lemma {:induction false} FlatLength(a: seq<Name>, b: seq<Name>)
    ensures |Flat(a + b)| == |Flat(a)| + |Flat(b)| - 1
    decreases |b|
  {
    if b == [] {
      NoSuffix(a);
    } else {
      assert (a + b)[..|a + b| - 1] == a + b[..|b| - 1];
      FlatLength(a, b[..|b| - 1]);
    }
  }

  lemma OneName(n: Name)
    ensures |Flat([n])| == |n| + 2
  {
    FlatPush([], n);
    NoPrefix([n]);
  }

  lemma GrownLength(names: seq<Name>, c: Byte)
    ensures |Flat(Grown(names, c))| <= |Flat(names)| + 1
  {
    if names != [] { FlatGrow(names, c); }
  }

  lemma FrontLength(names: seq<Name>)
    requires names != []
    ensures |Flat(Front(names))| <= |Flat(names)|
  {
    FlatShrinks(names);
  }

  lemma {:induction false} FlatNotEmpty(names: seq<Name>)
    ensures |Flat(names)| >= 1
  {
  }

  lemma DepthIs(m: Machine)
    ensures Depth(m) == |Flat(m.open)| + |Flat(m.extra)| - 2
  {
    FlatLength(m.open, m.extra);
  }

  lemma PerformDepth(m: Machine, a: Action, c: Byte)
    ensures Depth(Perform(m, a, c).m) <= Depth(m) + 2 && Perform(m, a, c).m.room == m.room
  {
    hide Flat, Depth, Accepted, CodePoint, SaysXml, Grown;
    DepthIs(m);
    DepthIs(Perform(m, a, c).m);
    OneName([c]);
    FlatLength(m.open, [[c]]);
    GrownLength(m.open, c);
    GrownLength(m.extra, c);
    FlatNotEmpty(m.extra);
    FlatOfNone();
    if m.open != [] { FrontLength(m.open); }
  }

  lemma FlatOfNone()
    ensures |Flat([])| == 1
  {
  }

  lemma SameDepth(m: Machine, m': Machine)
    requires m'.open == m.open && m'.extra == m.extra
    ensures Depth(m') == Depth(m)
  {
  }

  lemma StepDepth(m: Machine, b: Byte)
    ensures Depth(Step(m, b).m) <= Depth(m) + 2 && Step(m, b).m.room == m.room
  {
    hide OnByte, Perform, Depth;
    SameDepth(m, m.(ignore := 0));
    var m' := m.(ignore := if b == 13 then 10 else 0);
    var c: Byte := if b == 13 then 10 else b;
    SameDepth(m, m');
    if OnByte(m.regs, c).React? {
      var r := OnByte(m.regs, c);
      SameDepth(m, m'.(regs := r.regs));
      PerformDepth(m'.(regs := r.regs), r.action, c);
    }
  }

  /** What is left of the room. */
  lemma {:induction false} RoomLeft(m: Machine, bytes: seq<Byte>, m': Machine, told: seq<Report>, n: nat)
    requires Trip(m, bytes, m', told) && Roomy(m, |bytes| + n)
    ensures Roomy(m', n) && m'.room == m.room
    decreases |bytes|
  {
    hide Step, Told, Depth;
    if bytes != [] {
      StepDepth(m, bytes[0]);
      var o := Step(m, bytes[0]);
      RoomLeft(o.m, bytes[1..], m', Go(o.m, bytes[1..]).told, n);
    }
  }

  lemma LessRoom(m: Machine, n: nat, k: nat)
    requires Roomy(m, n) && k <= n
    ensures Roomy(m, k)
  {
    hide Depth;
  }

  // ---------------------------------------------------------------- single bytes

  /** A byte that is not the end of the string and no carriage return, read by a machine that expects no line feed. */
  predicate Plainly(m: Machine, c: Byte) {
    m.ignore == 0 && c != NUL && c != 13
  }

  lemma StepIs(m: Machine, c: Byte, r: Regs, a: Action)
    requires Plainly(m, c) && OnByte(m.regs, c) == React(r, a)
    ensures Step(m, c) == Perform(m.(regs := r), a, c)
  {
    hide OnByte, Perform;
    assert m.(ignore := 0) == m;
  }

  lemma One(m: Machine, c: Byte)
    requires !Negative(Step(m, c).ret)
    ensures Trip(m, [c], Step(m, c).m, Told(m, c))
  {
    hide Step, Told;
    var m' := Step(m, c).m;
    assert [c][1..] == [];
    assert Go(m', []) == Way(true, m', []);
    NoSuffix(Told(m, c));
  }

  /** A byte that only changes the state. */
  lemma Silent(m: Machine, c: Byte, r: Regs)
    requires Plainly(m, c) && OnByte(m.regs, c) == React(r, Give(Ok))
    ensures Trip(m, [c], m.(regs := r), [])
  {
    StepIs(m, c, r, Give(Ok));
    hide OnByte, Step;
    One(m, c);
  }

  /** A byte that reports something and only changes the state. */
  lemma Gives(m: Machine, c: Byte, r: Regs, ret: Ret)
    requires Plainly(m, c) && OnByte(m.regs, c) == React(r, Give(ret)) && !Negative(ret)
    ensures Step(m, c) == Outcome(m.(regs := r), ret) && Trip(m, [c], m.(regs := r), Told(m, c))
  {
    StepIs(m, c, r, Give(ret));
    hide OnByte, Step;
    One(m, c);
  }

  // ---------------------------------------------------------------- the rows of the table

  lemma StringRow(r: Regs, c: Byte)
    requires r.state == StString
    ensures OnByte(r, c) == OnString(r, c)
  {
    hide OnString, OnAttr, OnCdata, OnComment, OnDoctype, OnElem, OnLess;
    hide OnMark, OnMisc, OnPi, OnDeclaration, OnVersion, OnEncoding, OnStandalone;
  }

  lemma AttrRow(r: Regs, c: Byte)
    requires r.state.Attr?
    ensures OnByte(r, c) == OnAttr(r, c)
  {
    hide OnString, OnAttr, OnCdata, OnComment, OnDoctype, OnElem, OnLess;
    hide OnMark, OnMisc, OnPi, OnDeclaration, OnVersion, OnEncoding, OnStandalone;
  }

  lemma CdataRow(r: Regs, c: Byte)
    requires r.state.Cd?
    ensures OnByte(r, c) == OnCdata(r, c)
  {
    hide OnString, OnAttr, OnCdata, OnComment, OnDoctype, OnElem, OnLess;
    hide OnMark, OnMisc, OnPi, OnDeclaration, OnVersion, OnEncoding, OnStandalone;
  }

  lemma CommentRow(r: Regs, c: Byte)
    requires r.state.Comment?
    ensures OnByte(r, c) == OnComment(r, c)
  {
    hide OnString, OnAttr, OnCdata, OnComment, OnDoctype, OnElem, OnLess;
    hide OnMark, OnMisc, OnPi, OnDeclaration, OnVersion, OnEncoding, OnStandalone;
  }

  lemma DoctypeRow(r: Regs, c: Byte)
    requires r.state.Dt?
    ensures OnByte(r, c) == OnDoctype(r, c)
  {
    hide OnString, OnAttr, OnCdata, OnComment, OnDoctype, OnElem, OnLess;
    hide OnMark, OnMisc, OnPi, OnDeclaration, OnVersion, OnEncoding, OnStandalone;
  }

  lemma ElemRow(r: Regs, c: Byte)
    requires r.state.Elem? || r.state.Etag?
    ensures OnByte(r, c) == OnElem(r, c)
  {
    hide OnString, OnAttr, OnCdata, OnComment, OnDoctype, OnElem, OnLess;
    hide OnMark, OnMisc, OnPi, OnDeclaration, OnVersion, OnEncoding, OnStandalone;
  }

  lemma LessRow(r: Regs, c: Byte)
    requires r.state.Le?
    ensures OnByte(r, c) == OnLess(r, c)
  {
    hide OnString, OnAttr, OnCdata, OnComment, OnDoctype, OnElem, OnLess;
    hide OnMark, OnMisc, OnPi, OnDeclaration, OnVersion, OnEncoding, OnStandalone;
  }

  lemma MarkRow(r: Regs, c: Byte)
    requires r.state.Lee? || r.state == Leq0
    ensures OnByte(r, c) == OnMark(r, c)
  {
    hide OnString, OnAttr, OnCdata, OnComment, OnDoctype, OnElem, OnLess;
    hide OnMark, OnMisc, OnPi, OnDeclaration, OnVersion, OnEncoding, OnStandalone;
  }

  lemma MiscRow(r: Regs, c: Byte)
    requires r.state == Init || r.state.Misc? || r.state == Misc2a
    ensures OnByte(r, c) == OnMisc(r, c)
  {
    hide OnString, OnAttr, OnCdata, OnComment, OnDoctype, OnElem, OnLess;
    hide OnMark, OnMisc, OnPi, OnDeclaration, OnVersion, OnEncoding, OnStandalone;
  }

  lemma PiRow(r: Regs, c: Byte)
    requires r.state.Pi?
    ensures OnByte(r, c) == OnPi(r, c)
  {
    hide OnString, OnAttr, OnCdata, OnComment, OnDoctype, OnElem, OnLess;
    hide OnMark, OnMisc, OnPi, OnDeclaration, OnVersion, OnEncoding, OnStandalone;
  }

  lemma DeclarationRow(r: Regs, c: Byte)
    requires r.state.XmlDecl? && r.state.n < 3
    ensures OnByte(r, c) == OnDeclaration(r, c)
  {
    hide OnString, OnAttr, OnCdata, OnComment, OnDoctype, OnElem, OnLess;
    hide OnMark, OnMisc, OnPi, OnDeclaration, OnVersion, OnEncoding, OnStandalone;
  }

  lemma VersionRow(r: Regs, c: Byte)
    requires r.state == XmlDecl(3) || r.state.Ver?
    ensures OnByte(r, c) == OnVersion(r, c)
  {
    hide OnString, OnAttr, OnCdata, OnComment, OnDoctype, OnElem, OnLess;
    hide OnMark, OnMisc, OnPi, OnDeclaration, OnVersion, OnEncoding, OnStandalone;
  }

  lemma EncodingRow(r: Regs, c: Byte)
    requires r.state == XmlDecl(4) || r.state == XmlDecl(5) || r.state.Enc?
    ensures OnByte(r, c) == OnEncoding(r, c)
  {
    hide OnString, OnAttr, OnCdata, OnComment, OnDoctype, OnElem, OnLess;
    hide OnMark, OnMisc, OnPi, OnDeclaration, OnVersion, OnEncoding, OnStandalone;
  }

  lemma StandaloneRow(r: Regs, c: Byte)
    requires (r.state.XmlDecl? && r.state.n > 5) || r.state.Std?
    ensures OnByte(r, c) == OnStandalone(r, c)
  {
    hide OnString, OnAttr, OnCdata, OnComment, OnDoctype, OnElem, OnLess;
    hide OnMark, OnMisc, OnPi, OnDeclaration, OnVersion, OnEncoding, OnStandalone;
  }
}
