// yxml_t of src/c/yxml.c: the automaton over a byte stack of fixed size. Every call of Parse does to the
// bytes what XmlAutomaton.Step does to the list of names they stand for.
module XmlParser {
  import opened Bytes
  import opened Sequences
  import opened XmlStates
  import opened XmlAutomaton

  lemma FlatEnds(names: seq<Name>)
    ensures Flat(names)[|Flat(names)| - 1] == NUL
  {
  }

  lemma FlatPositive(names: seq<Name>)
    ensures |Flat(names)| >= 1 && (|Flat(names)| == 1 ==> names == [])
  {
    if names != [] { FlatPositive(Front(names)); }
  }

  /** The last name sits between its neighbours' terminators. */
  lemma FlatLast(names: seq<Name>)
    requires names != []
    ensures var s, f, n := Flat(names), Flat(Front(names)), Last(names);
      && |s| == |f| + |n| + 1
      && s[..|f|] == f
      && s[|f|..|f| + |n|] == n
      && (forall i :: 0 <= i < |n| ==> s[|f| + i] == n[i])
      && s[|f| - 1] == NUL && s[|s| - 1] == NUL
  {
    FlatEnds(Front(names));
  }

  /** The bytes of x->data. */
  function DataFor(s: St, reference: seq<Byte>, c: Byte, ret: Ret): seq<Byte> {
    match ret
    case Content =>
      if s == Cd(1) then [Ch(']'), c]
      else if s == Cd(2) then if c == Ch(']') then [c] else [Ch(']'), Ch(']'), c]
      else if s == Misc2a then SetUtf8(CodePoint(reference))
      else [c]
    case AttrVal => if s == Attr(4) then SetUtf8(CodePoint(reference)) else [if c == 0x9 || c == 0xa then 0x20 else c]
    case PiContent => if s == Pi(3) then [Ch('?'), c] else [c]
    case _ => []
  }

  /** The data or the name that comes with the return code. */
  function Spoken(s: St, reference: seq<Byte>, c: Byte, ret: Ret, m: Machine): seq<Byte> {
    if ret == ElemStart then (if m.open != [] then Last(m.open) else [])
    else if ret == AttrStart || ret == PiStart then (if m.extra != [] then m.extra[0] else [])
    else DataFor(s, reference, c, ret)
  }

  lemma SaidIsSpoken(m: Machine, b: Byte)
    ensures Said(m, b) == Spoken(m.regs.state, m.reference, if b == 13 then 10 else b, Step(m, b).ret, Step(m, b).m)
  {
    hide Step, CodePoint, SetUtf8;
  }

  lemma StepWhen(m: Machine, b: Byte)
    ensures b == NUL ==> Step(m, b).ret == Esyn
    ensures b != NUL && m.ignore == b ==> Step(m, b) == Outcome(m.(ignore := 0), Ok)
    ensures var c: Byte := if b == 13 then 10 else b;
      b != NUL && m.ignore != b ==>
        match OnByte(m.regs, c)
        case Reject => Step(m, b).ret == Esyn
        case React(r, a) => Step(m, b) == Perform(m.(ignore := if b == 13 then 10 else 0).(regs := r), a, c)
  {
    hide OnByte, Perform;
  }

  lemma SaysNothing(m: Machine, b: Byte)
    requires Step(m, b).ret == Ok
    ensures Said(m, b) == []
  {
    hide Step, CodePoint, SetUtf8;
  }

  /** What is on the stack when a name is reported. */
  lemma StepNames(m: Machine, b: Byte)
    requires Sound(m)
    ensures var o := Step(m, b);
      && (o.ret == ElemStart ==> o.m.open != [] && o.m.extra == [] && o.m.tag == [])
      && (o.ret == AttrStart || o.ret == PiStart ==> |o.m.extra| == 1)
  {
    hide OnByte, CodePoint, Accepted, SaysXml, Depth, NamesFit, RegsFit;
    var c: Byte := if b == 13 then 10 else b;
    TableFits(m.regs, c) by { FitsRegs(m); }
  }

  lemma SoundNames(m: Machine)
    requires Sound(m)
    ensures NamesFit(m)
  {
  }

  class Yxml {
    var regs: Regs
    var ignore: Byte
    const stack: array<Byte>
    var stacklen: nat
    var elem: nat             // the pointers into the stack are indices
    var name: nat             // x->attr or x->pi
    var reference: seq<Byte>
    ghost var m: Machine

    /** The bytes up to stacklen are those of the names. */
    ghost predicate Stacked(names: seq<Name>)
      reads this`stacklen, stack
    {
      stacklen + 1 == |Flat(names)| <= stack.Length && stack[..stacklen + 1] == Flat(names)
    }

    /** elem points into the innermost element's name, past what an end tag has matched. */
    ghost predicate PointsAt(names: seq<Name>, matched: nat)
      reads this`elem
    {
      names != [] ==> elem == |Flat(Front(names))| + matched
    }

    /** The fields represent the machine. */
    ghost predicate Represents()
      reads this, stack
    {
      && m.room == stack.Length
      && regs == m.regs && ignore == m.ignore && reference == m.reference
      && Stacked(m.open + m.extra)
      && PointsAt(m.open, |m.tag|)
      && (m.extra != [] ==> name == |Flat(m.open)|)
    }

    ghost predicate Valid()
      reads this, stack
    {
      Sound(m) && Represents()
    }

    /** yxml_init */
    constructor (bytes: array<Byte>)
      requires bytes.Length > 0
      modifies bytes
      ensures Valid() && stack == bytes && m == Start(bytes.Length)
    {
      regs, ignore, stack, stacklen, elem, name := Regs(Init, StString, 0, []), 0, bytes, 0, 0, 0;
      reference := [];
      m := Start(bytes.Length);
      new;
      stack[0] := NUL;
      StartSound(bytes.Length);
    }

    /** yxml_pushstack */
    method PushStack(c: Byte, ghost names: seq<Name>) returns (ok: bool, at: nat)
      requires Stacked(names)
      modifies this`stacklen, stack
      ensures ok <==> old(stacklen) + 2 < stack.Length
      ensures ok ==> Stacked(names + [[c]]) && at == |Flat(names)|
    {
      FlatPush(names, [c]);
      FlatEnds(names);
      if stacklen + 2 >= stack.Length { return false, 0; }
      stacklen := stacklen + 1;
      at := stacklen;
      stack[stacklen] := c;
      stacklen := stacklen + 1;
      stack[stacklen] := NUL;
      ok := true;
    }

    /** yxml_pushstackc */
    method PushStackC(c: Byte, ghost names: seq<Name>) returns (ok: bool)
      requires Stacked(names) && names != []
      modifies this`stacklen, stack
      ensures ok <==> old(stacklen) + 1 < stack.Length
      ensures ok ==> Stacked(Grown(names, c))
    {
      FlatPush(Front(names), Last(names) + [c]);
      FlatLast(names);
      if stacklen + 1 >= stack.Length { return false; }
      stack[stacklen] := c;
      stacklen := stacklen + 1;
      stack[stacklen] := NUL;
      ok := true;
    }

    /** yxml_popstack: back to the terminator before the last name. */
    method PopStack(ghost names: seq<Name>)
      requires Stacked(names) && names != [] && Proper(Last(names))
      modifies this`stacklen
      ensures Stacked(Front(names))
    {
      FlatLast(names);
      ghost var f := |Flat(Front(names))|;
      stacklen := stacklen - 1;
      while stack[stacklen] != NUL
        invariant f - 1 <= stacklen < |Flat(names)| - 1
        decreases stacklen
      {
        stacklen := stacklen - 1;
      }
    }

    /** The loop of yxml_selfclose: back to where the last name starts. */
    method FindElem(ghost names: seq<Name>)
      requires Stacked(names) && names != [] && Proper(Last(names))
      modifies this`elem
      ensures PointsAt(names, 0)
    {
      FlatLast(names);
      ghost var f := |Flat(Front(names))|;
      elem := stacklen - 1;
      while stack[elem - 1] != NUL
        invariant f <= elem < |Flat(names)| - 1
        decreases elem
      {
        elem := elem - 1;
      }
    }

    /** yxml_selfclose */
    method SelfClose() returns (ret: Ret)
      requires Represents() && m.extra == [] && m.open != [] && forall n :: n in m.open ==> Proper(n)
      modifies this
      ensures ret == ElemEnd && Represents() && m == CloseTop(old(m)).m
    {
      NoSuffix(m.open);
      NoSuffix(Front(m.open));
      PopStack(m.open);
      m := CloseTop(m).m;
      if stacklen != 0 {
        assert m.open != [];
        FindElem(m.open);
      } else {
        FlatPositive(m.open);
        elem := 0;
        regs := regs.(state := Misc(3));
      }
      ret := ElemEnd;
    }

    /** yxml_elemclose */
    method ElemClose(c: Byte) returns (ret: Ret)
      requires Represents() && m.extra == [] && m.open != [] && m.tag <= Last(m.open) && c != NUL
      modifies this`elem, this`m
      ensures ret == Perform(old(m), CloseChar, c).ret
      ensures !Negative(ret) ==> Represents() && m == Perform(old(m), CloseChar, c).m
    {
      NoSuffix(m.open);
      FlatLast(m.open);
      if stack[elem] != c { return Eclose; }
      m := m.(tag := m.tag + [c]);
      elem := elem + 1;
      ret := Ok;
    }

    /** The bytes of the last name and its terminator. */
    lemma NameBytes(names: seq<Name>, at: nat)
      requires Stacked(names) && names != [] && at == |Flat(Front(names))|
      ensures at + |Last(names)| == stacklen < stack.Length && stack[stacklen] == NUL
      ensures forall i :: 0 <= i < |Last(names)| ==> stack[at + i] == Last(names)[i]
    {
      FlatLast(names);
    }

    /** yxml_elemcloseend */
    method ElemCloseEnd() returns (ret: Ret)
      requires Represents() && m.extra == [] && m.open != [] && m.tag <= Last(m.open)
      requires forall n :: n in m.open ==> Proper(n)
      modifies this
      ensures ret == (if |old(m).tag| == |Last(old(m).open)| then ElemEnd else Eclose)
      ensures !Negative(ret) ==> Represents() && m == CloseTop(old(m)).m
    {
      NoSuffix(m.open);
      NameBytes(m.open, elem - |m.tag|);
      assert Proper(Last(m.open)) && forall i :: 0 <= i < |Last(m.open)| ==> Last(m.open)[i] != NUL;
      hide Represents, Proper, Flat, CloseTop;
      if stack[elem] != NUL {
        assert stack[(elem - |m.tag|) + |m.tag|] != NUL;
        return Eclose;
      }
      ret := SelfClose();
    }

    /** yxml_pinameend: is the name "xml" in any mixture of cases? */
    method PiNameEnd() returns (ret: Ret)
      requires Represents() && |m.extra| == 1 && Proper(m.extra[0])
      ensures ret == (if SaysXml(m.extra[0]) then Esyn else PiStart)
    {
      ghost var names := m.open + m.extra;
      ghost var n := m.extra[0];
      assert Front(names) == m.open && Last(names) == n;
      assert forall i :: 0 <= i < |n| ==> n[i] != NUL;
      NameBytes(names, name);
      assert |n| > 0;
      hide Represents, Flat, Proper;
      var x := stack[name];
      if x != 88 && x != 120 { assert n[0] == x; return PiStart; }
      x := stack[name + 1];
      if x != 77 && x != 109 { return PiStart; }
      x := stack[name + 2];
      if x != 76 && x != 108 { return PiStart; }
      x := stack[name + 3];
      if x != NUL { return PiStart; }
      ret := Esyn;
    }

    /** What the state has to be for a helper to be called. */
    static ghost predicate Ready(m: Machine, a: Action) {
      && NamesFit(m)
      && match a
        case PushElem | CloseChar | CloseEnd | CloseSelf | GrowElem =>
          m.extra == [] && (a.PushElem? || m.open != []) && (m.open != [] ==> m.tag <= Last(m.open))
          && (a.PushElem? || a.GrowElem? ==> m.tag == [])
        case PushAttr | PushPi => m.extra == []
        case GrowAttr | GrowPi | PopAttr | PopPi | AbortPi | EndPiName => |m.extra| == 1
        case _ => true
    }

    static lemma TableIsReady(m: Machine, r: Regs, a: Action)
      requires Sound(m) && ActionFits(m.regs, r, a)
      ensures Ready(m.(regs := r), a)
    {
      hide RegsFit, Flat;
    }

    method PushElemStart(c: Byte) returns (ret: Ret)
      requires Represents() && Ready(m, PushElem)
      modifies this, stack
      ensures ret == Perform(old(m), PushElem, c).ret
      ensures !Negative(ret) ==> Represents() && m == Perform(old(m), PushElem, c).m
    {
      NoSuffix(m.open);
      NoSuffix(m.open + [[c]]);
      var ok, at := PushStack(c, m.open);
      if !ok { return Estack; }
      elem := at;
      assert Front(m.open + [[c]]) == m.open;
      m := m.(open := m.open + [[c]]);
      ret := Ok;
    }

    method GrowElemName(c: Byte) returns (ret: Ret)
      requires Represents() && Ready(m, GrowElem)
      modifies this`stacklen, this`m, stack
      ensures ret == Perform(old(m), GrowElem, c).ret
      ensures !Negative(ret) ==> Represents() && m == Perform(old(m), GrowElem, c).m
    {
      NoSuffix(m.open);
      NoSuffix(Grown(m.open, c));
      var ok := PushStackC(c, m.open);
      if !ok { return Estack; }
      assert Front(Grown(m.open, c)) == Front(m.open);
      m := m.(open := Grown(m.open, c));
      ret := Ok;
    }

    /** The start of an attribute's or an instruction's name. */
    method PushExtra(c: Byte, ghost a: Action) returns (ret: Ret)
      requires Represents() && Ready(m, a) && (a.PushAttr? || a.PushPi?)
      modifies this, stack
      ensures ret == Perform(old(m), a, c).ret
      ensures !Negative(ret) ==> Represents() && m == Perform(old(m), a, c).m
    {
      NoSuffix(m.open);
      var ok, at := PushStack(c, m.open);
      if !ok { return Estack; }
      name := at;
      m := m.(extra := [[c]]);
      ret := Ok;
    }

    method GrowExtra(c: Byte, ghost a: Action) returns (ret: Ret)
      requires Represents() && Ready(m, a) && (a.GrowAttr? || a.GrowPi?)
      modifies this`stacklen, this`m, stack
      ensures ret == Perform(old(m), a, c).ret
      ensures !Negative(ret) ==> Represents() && m == Perform(old(m), a, c).m
    {
      hide NamesFit, CloseTop, SaysXml, CodePoint, Accepted;
      assert m.extra == [m.extra[0]];
      GrownExtra(m.open, m.extra[0], c);
      var ok := PushStackC(c, m.open + m.extra);
      if !ok { return Estack; }
      m := m.(extra := Grown(m.extra, c));
      ret := Ok;
    }

    method PopExtra()
      requires Represents() && Ready(m, PopAttr)
      modifies this`stacklen, this`m
      ensures Represents() && m == old(m).(extra := [])
    {
      assert Front(m.open + m.extra) == m.open && Last(m.open + m.extra) == m.extra[0];
      NoSuffix(m.open);
      PopStack(m.open + m.extra);
      m := m.(extra := []);
    }

    /** The call of the helper. */
    method Act(a: Action, c: Byte) returns (ret: Ret)
      requires Represents() && Ready(m, a) && c != NUL
      modifies this, stack
      ensures ret == Perform(old(m), a, c).ret
      ensures !Negative(ret) ==> Represents() && m == Perform(old(m), a, c).m
    {
      hide Represents, Flat, Proper, CodePoint, Accepted, SaysXml, CloseTop;
      match a
      case Give(r) => ret := r;
      case PushElem => ret := PushElemStart(c);
      case GrowElem => ret := GrowElemName(c);
      case CloseSelf => ret := SelfClose();
      case CloseChar => ret := ElemClose(c);
      case CloseEnd => ret := ElemCloseEnd();
      case PushAttr => ret := PushExtra(c, a);
      case GrowAttr => ret := GrowExtra(c, a);
      case PopAttr => PopExtra(); ret := AttrEnd;
      case PushPi => ret := PushExtra(c, a);
      case GrowPi => ret := GrowExtra(c, a);
      case EndPiName => ret := PiNameEnd();
      case PopPi => PopExtra(); ret := PiEnd;
      case AbortPi => PopExtra(); ret := Ok;
      case RefStart => SetReference([]); ret := Ok;
      case RefChar => ret := AddReference(c);
      case RefEnd(r) => ret := EndReference(r);
    }

    method SetReference(s: seq<Byte>)
      requires Represents()
      modifies this`reference, this`m
      ensures Represents() && m == old(m).(reference := s)
    {
      reference := s;
      m := m.(reference := s);
    }

    /** yxml_ref */
    method AddReference(c: Byte) returns (ret: Ret)
      requires Represents()
      modifies this`reference, this`m
      ensures ret == Perform(old(m), RefChar, c).ret
      ensures !Negative(ret) ==> Represents() && m == Perform(old(m), RefChar, c).m
    {
      if |reference| >= 7 { return Eref; }
      SetReference(reference + [c]);
      ret := Ok;
    }

    /** yxml_refend, as far as its return code goes */
    method EndReference(r: Ret) returns (ret: Ret)
      requires Represents()
      ensures ret == Perform(m, RefEnd(r), NUL).ret
    {
      hide Accepted, CodePoint, Sound, Flat;
      ret := if Accepted(CodePoint(reference)) then r else Eref;
    }

    /** The name that starts there, up to its terminator. */
    method ReadName(at: nat, ghost names: seq<Name>) returns (text: seq<Byte>)
      requires Stacked(names) && names != [] && Proper(Last(names)) && at == |Flat(Front(names))|
      ensures text == Last(names)
    {
      ghost var n := Last(names);
      NameBytes(names, at);
      assert forall i :: 0 <= i < |n| ==> n[i] != NUL;
      hide Flat, Proper;
      text := [];
      var i := at;
      while stack[i] != NUL
        invariant at <= i <= stacklen && text == n[..i - at]
        decreases stacklen - i
      {
        assert n[..i - at] + [n[i - at]] == n[..i - at + 1];
        text := text + [stack[i]];
        i := i + 1;
      }
    }

    /** What the caller finds in x->data, x->elem, x->attr or x->pi. */
    method Answer(s: St, r: seq<Byte>, c: Byte, ret: Ret) returns (text: seq<Byte>)
      requires Represents() && NamesFit(m)
      requires ret == ElemStart ==> m.open != [] && m.extra == [] && m.tag == []
      requires ret == AttrStart || ret == PiStart ==> |m.extra| == 1
      ensures text == Spoken(s, r, c, ret, m)
    {
      hide Flat, CodePoint, Proper;
      if ret == ElemStart {
        NoSuffix(m.open);
        assert Last(m.open) in m.open;
        text := ReadName(elem, m.open);
      } else if ret == AttrStart || ret == PiStart {
        ghost var names := m.open + m.extra;
        assert Front(names) == m.open && Last(names) == m.extra[0] && m.extra[0] in m.extra;
        text := ReadName(name, names);
      } else {
        text := DataFor(s, r, c, ret);
      }
    }

    /** yxml_parse: the byte stack follows the automaton over names, as long as there is no error; `text` is what the
        caller reads behind the return code. */
    method Parse(b: Byte) returns (ret: Ret, text: seq<Byte>)
      requires Valid()
      modifies this, stack
      ensures ret == Step(old(m), b).ret
      ensures !Negative(ret) ==> Valid() && m == Step(old(m), b).m && text == Said(old(m), b)
    {
      StepSound(m, b);
      StepNames(m, b);
      SaidIsSpoken(m, b);
      StepWhen(m, b);
      hide Sound, OnByte, Perform, Represents, Said, Spoken, Proper, Step, NamesFit, Flat, Ready;
      text := [];
      if b == NUL { return Esyn, []; }
      if IgnoreIs(b) {
        SaysNothing(m, b);
        Advance(regs, 0);
        return Ok, [];
      }
      var c: Byte := if b == 13 then 10 else b;
      RegsAre();
      var s, r := regs.state, reference;
      match OnByte(regs, c)
      case Reject => ret := Esyn;
      case React(r', a) =>
        Prepare(m, m.(ignore := if b == 13 then 10 else 0), r', a, c);
        Advance(r', if b == 13 then 10 else 0);
        ret := Act(a, c);
        if !Negative(ret) {
          SoundNames(m);
          text := Answer(s, r, c, ret);
        }
    }

    function IgnoreIs(b: Byte): (r: bool)
      requires Represents()
      reads this, stack
      ensures r == (m.ignore == b)
    {
      ignore == b
    }

    lemma RegsAre()
      requires Represents()
      ensures regs == m.regs && reference == m.reference
    {
    }

    method Advance(r: Regs, ig: Byte)
      requires Represents()
      modifies this`regs, this`ignore, this`m
      ensures Represents() && m == old(m).(regs := r, ignore := ig)
    {
      regs := r;
      ignore := ig;
      m := m.(regs := r, ignore := ig);
    }

    static lemma Prepare(m: Machine, m': Machine, r: Regs, a: Action, c: Byte)
      requires Sound(m) && m' == m.(ignore := m'.ignore) && OnByte(m.regs, c) == React(r, a)
      ensures Ready(m'.(regs := r), a)
    {
      TableFits(m.regs, c);
      hide OnByte, ActionFits, RegsFit, Flat;
      assert Sound(m');
      TableIsReady(m', r, a);
    }

    /** yxml_eof */
    method AtEnd() returns (ret: Ret)
      requires Valid()
      ensures ret == Eof(m) && (ret == Ok ==> m.open == [] && stacklen == 0)
    {
      ret := if regs.state != Misc(3) then Eeof else Ok;
      NoSuffix(m.open);
    }
  }
}
