// The transition table of yxml_parse in src/c/yxml.c: for each of the 66 states, what a byte does to the
// state and which of the stack helpers it calls.
module XmlStates {
  import opened Bytes

  /** YXMLS_attr0 is Attr(0), and so on. */
  datatype St =
    | StString
    | Attr(n: nat)
    | Cd(n: nat)
    | Comment(n: nat)
    | Dt(n: nat)
    | Elem(n: nat)
    | Enc(n: nat)
    | Etag(n: nat)
    | Init
    | Le(n: nat)
    | Lee(n: nat)
    | Leq0
    | Misc(n: nat)
    | Misc2a
    | Pi(n: nat)
    | Std(n: nat)
    | Ver(n: nat)
    | XmlDecl(n: nat)

  /** yxml_ret_t; the last five are the negative ones. */
  datatype Ret =
    | Ok | ElemStart | Content | ElemEnd | AttrStart | AttrVal | AttrEnd | PiStart | PiContent | PiEnd
    | Eeof | Eref | Eclose | Estack | Esyn

  predicate Negative(r: Ret) {
    r.Eeof? || r.Eref? || r.Eclose? || r.Estack? || r.Esyn?
  }

  /** The stack helper, or the code that is returned without one. */
  datatype Action =
    | Give(ret: Ret)
    | PushElem | GrowElem | CloseSelf | CloseChar | CloseEnd
    | PushAttr | GrowAttr | PopAttr
    | PushPi | GrowPi | EndPiName | PopPi | AbortPi
    | RefStart | RefChar | RefEnd(ret: Ret)

  /** The fields of yxml_t the table reads and writes; `literal` is what is left of the string. */
  datatype Regs = Regs(state: St, next: St, quote: Byte, literal: seq<Byte>)

  datatype Reaction = Reject | React(regs: Regs, action: Action)

  // ---------------------------------------------------------------- character classes

  function Ch(c: char): Byte
    requires c as int < 256
  {
    c as int
  }

  predicate IsSP(c: Byte) { c == 0x20 || c == 0x09 || c == 0x0a }

  predicate IsAlpha(c: Byte) { 65 <= c <= 90 || 97 <= c <= 122 }

  predicate IsNum(c: Byte) { 48 <= c <= 57 }

  predicate IsEncName(c: Byte) { IsAlpha(c) || IsNum(c) || c == Ch('.') || c == Ch('_') || c == Ch('-') }

  predicate IsNameStart(c: Byte) { IsAlpha(c) || c == Ch(':') || c == Ch('_') || c >= 128 }

  predicate IsName(c: Byte) { IsNameStart(c) || IsNum(c) || c == Ch('-') || c == Ch('.') }

  predicate IsQuote(c: Byte) { c == Ch('\'') || c == Ch('"') }

  predicate IsRef(c: Byte) { IsNum(c) || IsAlpha(c) || c == Ch('#') }

  function Text(s: string): (t: seq<Byte>)
    requires forall i :: 0 <= i < |s| ==> s[i] as int < 256
    ensures |t| == |s|
  {
    if s == "" then [] else [s[0] as int] + Text(s[1..])
  }

  // ---------------------------------------------------------------- the table

  function To(r: Regs, s: St): Reaction {
    React(r.(state := s), Give(Ok))
  }

  function Do(r: Regs, s: St, a: Action): Reaction {
    React(r.(state := s), a)
  }

  function Stay(r: Regs): Reaction {
    React(r, Give(Ok))
  }

  /** A fixed string is to follow. */
  function Literally(r: Regs, s: seq<Byte>, next: St): Reaction {
    React(r.(state := StString, next := next, literal := s), Give(Ok))
  }

  function OnString(r: Regs, c: Byte): Reaction {
    if r.literal != [] && c == r.literal[0] then
      React(r.(literal := r.literal[1..], state := if r.literal[1..] == [] then r.next else StString), Give(Ok))
    else Reject
  }

  function OnAttr(r: Regs, c: Byte): Reaction {
    match r.state
    case Attr(0) =>
      if IsName(c) then Do(r, Attr(0), GrowAttr)
      else if IsSP(c) then Do(r, Attr(1), Give(AttrStart))
      else if c == Ch('=') then Do(r, Attr(2), Give(AttrStart))
      else Reject
    case Attr(1) =>
      if IsSP(c) then Stay(r) else if c == Ch('=') then To(r, Attr(2)) else Reject
    case Attr(2) =>
      if IsSP(c) then Stay(r) else if IsQuote(c) then To(r.(quote := c), Attr(3)) else Reject
    case Attr(3) =>
      if c != r.quote && c != Ch('<') && c != Ch('&') then Do(r, Attr(3), Give(AttrVal))
      else if c == Ch('&') then Do(r, Attr(4), RefStart)
      else if r.quote == c then Do(r, Elem(2), PopAttr)
      else Reject
    case Attr(4) =>
      if IsRef(c) then Do(r, Attr(4), RefChar)
      else if c == Ch(';') then Do(r, Attr(3), RefEnd(AttrVal))
      else Reject
    case _ => Reject
  }

  function OnCdata(r: Regs, c: Byte): Reaction {
    match r.state
    case Cd(0) => if c == Ch(']') then To(r, Cd(1)) else Do(r, Cd(0), Give(Content))
    case Cd(1) => if c == Ch(']') then To(r, Cd(2)) else Do(r, Cd(0), Give(Content))
    case Cd(2) =>
      if c == Ch(']') then Do(r, Cd(2), Give(Content))
      else if c == Ch('>') then To(r, Misc(2))
      else Do(r, Cd(0), Give(Content))
    case _ => Reject
  }

  function OnComment(r: Regs, c: Byte): Reaction {
    match r.state
    case Comment(0) => if c == Ch('-') then To(r, Comment(1)) else Reject
    case Comment(1) => if c == Ch('-') then To(r, Comment(2)) else Reject
    case Comment(2) => if c == Ch('-') then To(r, Comment(3)) else Stay(r)
    case Comment(3) => if c == Ch('-') then To(r, Comment(4)) else To(r, Comment(2))
    case Comment(4) => if c == Ch('>') then To(r, r.next) else Reject
    case _ => Reject
  }

  function OnDoctype(r: Regs, c: Byte): Reaction {
    match r.state
    case Dt(0) =>
      if c == Ch('>') then To(r, Misc(1))
      else if IsQuote(c) then To(r.(quote := c, next := Dt(0)), Dt(1))
      else if c == Ch('<') then To(r, Dt(2))
      else Stay(r)
    case Dt(1) => if r.quote == c then To(r, r.next) else Stay(r)
    case Dt(2) =>
      if c == Ch('?') then To(r.(next := Dt(0)), Pi(0)) else if c == Ch('!') then To(r, Dt(3)) else Reject
    case Dt(3) => if c == Ch('-') then To(r.(next := Dt(0)), Comment(1)) else To(r, Dt(4))
    case Dt(4) =>
      if IsQuote(c) then To(r.(quote := c, next := Dt(4)), Dt(1))
      else if c == Ch('>') then To(r, Dt(0))
      else Stay(r)
    case _ => Reject
  }

  function OnElem(r: Regs, c: Byte): Reaction {
    match r.state
    case Elem(0) =>
      if IsName(c) then Do(r, Elem(0), GrowElem)
      else if IsSP(c) then Do(r, Elem(1), Give(ElemStart))
      else if c == Ch('/') then Do(r, Elem(3), Give(ElemStart))
      else if c == Ch('>') then Do(r, Misc(2), Give(ElemStart))
      else Reject
    case Elem(1) =>
      if IsSP(c) then Stay(r)
      else if c == Ch('/') then To(r, Elem(3))
      else if c == Ch('>') then To(r, Misc(2))
      else if IsNameStart(c) then Do(r, Attr(0), PushAttr)
      else Reject
    case Elem(2) =>
      if IsSP(c) then To(r, Elem(1))
      else if c == Ch('/') then To(r, Elem(3))
      else if c == Ch('>') then To(r, Misc(2))
      else Reject
    case Elem(3) => if c == Ch('>') then Do(r, Misc(2), CloseSelf) else Reject
    case Etag(0) => if IsNameStart(c) then Do(r, Etag(1), CloseChar) else Reject
    case Etag(1) =>
      if IsName(c) then Do(r, Etag(1), CloseChar)
      else if IsSP(c) then Do(r, Etag(2), CloseEnd)
      else if c == Ch('>') then Do(r, Misc(2), CloseEnd)
      else Reject
    case Etag(2) => if IsSP(c) then Stay(r) else if c == Ch('>') then To(r, Misc(2)) else Reject
    case _ => Reject
  }

  function OnLess(r: Regs, c: Byte): Reaction {
    match r.state
    case Le(0) =>
      if c == Ch('!') then To(r, Lee(1))
      else if c == Ch('?') then To(r, Leq0)
      else if IsNameStart(c) then Do(r, Elem(0), PushElem)
      else Reject
    case Le(1) =>
      if c == Ch('!') then To(r, Lee(1))
      else if c == Ch('?') then To(r.(next := Misc(1)), Pi(0))
      else if IsNameStart(c) then Do(r, Elem(0), PushElem)
      else Reject
    case Le(2) =>
      if c == Ch('!') then To(r, Lee(2))
      else if c == Ch('?') then To(r.(next := Misc(2)), Pi(0))
      else if c == Ch('/') then To(r, Etag(0))
      else if IsNameStart(c) then Do(r, Elem(0), PushElem)
      else Reject
    case Le(3) =>
      if c == Ch('!') then To(r.(next := Misc(3)), Comment(0))
      else if c == Ch('?') then To(r.(next := Misc(3)), Pi(0))
      else Reject
    case _ => Reject
  }

  function OnMark(r: Regs, c: Byte): Reaction {
    match r.state
    case Lee(1) =>
      if c == Ch('-') then To(r.(next := Misc(1)), Comment(1))
      else if c == Ch('D') then Literally(r, Text("OCTYPE"), Dt(0))
      else Reject
    case Lee(2) =>
      if c == Ch('-') then To(r.(next := Misc(2)), Comment(1))
      else if c == Ch('[') then Literally(r, Text("CDATA["), Cd(0))
      else Reject
    case Leq0 =>
      if c == Ch('x') then Do(r.(next := Misc(1)), XmlDecl(0), PushPi)
      else if IsNameStart(c) then Do(r.(next := Misc(1)), Pi(1), PushPi)
      else Reject
    case _ => Reject
  }

  function OnMisc(r: Regs, c: Byte): Reaction {
    match r.state
    case Init =>
      if c == 0xef then Literally(r, [0xbb, 0xbf], Misc(0))
      else if IsSP(c) then To(r, Misc(0))
      else if c == Ch('<') then To(r, Le(0))
      else Reject
    case Misc(0) => if IsSP(c) then Stay(r) else if c == Ch('<') then To(r, Le(0)) else Reject
    case Misc(1) => if IsSP(c) then Stay(r) else if c == Ch('<') then To(r, Le(1)) else Reject
    case Misc(2) =>
      if c == Ch('<') then To(r, Le(2))
      else if c == Ch('&') then Do(r, Misc2a, RefStart)
      else Do(r, Misc(2), Give(Content))
    case Misc2a =>
      if IsRef(c) then Do(r, Misc2a, RefChar)
      else if c == Ch(';') then Do(r, Misc(2), RefEnd(Content))
      else Reject
    case Misc(3) => if IsSP(c) then Stay(r) else if c == Ch('<') then To(r, Le(3)) else Reject
    case _ => Reject
  }

  function OnPi(r: Regs, c: Byte): Reaction {
    match r.state
    case Pi(0) => if IsNameStart(c) then Do(r, Pi(1), PushPi) else Reject
    case Pi(1) =>
      if IsName(c) then Do(r, Pi(1), GrowPi)
      else if c == Ch('?') then Do(r, Pi(4), EndPiName)
      else if IsSP(c) then Do(r, Pi(2), EndPiName)
      else Reject
    case Pi(2) => if c == Ch('?') then To(r, Pi(3)) else Do(r, Pi(2), Give(PiContent))
    case Pi(3) => if c == Ch('>') then Do(r, r.next, PopPi) else Do(r, Pi(2), Give(PiContent))
    case Pi(4) => if c == Ch('>') then Do(r, r.next, PopPi) else Reject
    case _ => Reject
  }

  /** An instruction that may turn out to be the XML declaration. */
  function OnDeclaration(r: Regs, c: Byte): Reaction {
    match r.state
    case XmlDecl(0) =>
      if c == Ch('m') then Do(r, XmlDecl(1), GrowPi)
      else if IsName(c) then Do(r, Pi(1), GrowPi)
      else if c == Ch('?') then Do(r, Pi(4), EndPiName)
      else if IsSP(c) then Do(r, Pi(2), EndPiName)
      else Reject
    case XmlDecl(1) =>
      if c == Ch('l') then Do(r, XmlDecl(2), GrowPi)
      else if IsName(c) then Do(r, Pi(1), GrowPi)
      else if c == Ch('?') then Do(r, Pi(4), EndPiName)
      else if IsSP(c) then Do(r, Pi(2), EndPiName)
      else Reject
    case XmlDecl(2) =>
      if IsSP(c) then Do(r, XmlDecl(3), AbortPi) else if IsName(c) then Do(r, Pi(1), GrowPi) else Reject
    case _ => Reject
  }

  function OnVersion(r: Regs, c: Byte): Reaction {
    match r.state
    case XmlDecl(3) =>
      if IsSP(c) then Stay(r) else if c == Ch('v') then Literally(r, Text("ersion"), Ver(0)) else Reject
    case Ver(0) => if IsSP(c) then Stay(r) else if c == Ch('=') then To(r, Ver(1)) else Reject
    case Ver(1) =>
      if IsSP(c) then Stay(r) else if IsQuote(c) then Literally(r.(quote := c), Text("1."), Ver(2)) else Reject
    case Ver(2) => if IsNum(c) then To(r, Ver(3)) else Reject
    case Ver(3) => if IsNum(c) then Stay(r) else if r.quote == c then To(r, XmlDecl(4)) else Reject
    case _ => Reject
  }

  function OnEncoding(r: Regs, c: Byte): Reaction {
    match r.state
    case XmlDecl(4) => if IsSP(c) then To(r, XmlDecl(5)) else if c == Ch('?') then To(r, XmlDecl(9)) else Reject
    case XmlDecl(5) =>
      if IsSP(c) then Stay(r)
      else if c == Ch('?') then To(r, XmlDecl(9))
      else if c == Ch('e') then Literally(r, Text("ncoding"), Enc(0))
      else if c == Ch('s') then Literally(r, Text("tandalone"), Std(0))
      else Reject
    case Enc(0) => if IsSP(c) then Stay(r) else if c == Ch('=') then To(r, Enc(1)) else Reject
    case Enc(1) => if IsSP(c) then Stay(r) else if IsQuote(c) then To(r.(quote := c), Enc(2)) else Reject
    case Enc(2) => if IsAlpha(c) then To(r, Enc(3)) else Reject
    case Enc(3) => if IsEncName(c) then Stay(r) else if r.quote == c then To(r, XmlDecl(6)) else Reject
    case _ => Reject
  }

  function OnStandalone(r: Regs, c: Byte): Reaction {
    match r.state
    case XmlDecl(6) => if IsSP(c) then To(r, XmlDecl(7)) else if c == Ch('?') then To(r, XmlDecl(9)) else Reject
    case XmlDecl(7) =>
      if IsSP(c) then Stay(r)
      else if c == Ch('?') then To(r, XmlDecl(9))
      else if c == Ch('s') then Literally(r, Text("tandalone"), Std(0))
      else Reject
    case Std(0) => if IsSP(c) then Stay(r) else if c == Ch('=') then To(r, Std(1)) else Reject
    case Std(1) => if IsSP(c) then Stay(r) else if IsQuote(c) then To(r.(quote := c), Std(2)) else Reject
    case Std(2) =>
      if c == Ch('y') then Literally(r, Text("es"), Std(3))
      else if c == Ch('n') then Literally(r, Text("o"), Std(3))
      else Reject
    case Std(3) => if r.quote == c then To(r, XmlDecl(8)) else Reject
    case XmlDecl(8) => if IsSP(c) then Stay(r) else if c == Ch('?') then To(r, XmlDecl(9)) else Reject
    case XmlDecl(9) => if c == Ch('>') then To(r, Misc(1)) else Reject
    case _ => Reject
  }

  datatype Group = GString | GAttr | GCdata | GComment | GDoctype | GElem | GLess | GMark | GMisc | GPi | GDeclaration |
    GVersion | GEncoding | GStandalone

  function GroupOf(s: St): Group {
    match s
    case StString => GString
    case Attr(_) => GAttr
    case Cd(_) => GCdata
    case Comment(_) => GComment
    case Dt(_) => GDoctype
    case Elem(_) | Etag(_) => GElem
    case Le(_) => GLess
    case Lee(_) | Leq0 => GMark
    case Init | Misc(_) | Misc2a => GMisc
    case Pi(_) => GPi
    case XmlDecl(n) => if n < 3 then GDeclaration else if n == 3 then GVersion else if n < 6 then GEncoding else GStandalone
    case Ver(_) => GVersion
    case Enc(_) => GEncoding
    case Std(_) => GStandalone
  }

  /** The switch of yxml_parse. */
  function OnByte(r: Regs, c: Byte): Reaction {
    match GroupOf(r.state)
    case GString => OnString(r, c)
    case GAttr => OnAttr(r, c)
    case GCdata => OnCdata(r, c)
    case GComment => OnComment(r, c)
    case GDoctype => OnDoctype(r, c)
    case GElem => OnElem(r, c)
    case GLess => OnLess(r, c)
    case GMark => OnMark(r, c)
    case GMisc => OnMisc(r, c)
    case GPi => OnPi(r, c)
    case GDeclaration => OnDeclaration(r, c)
    case GVersion => OnVersion(r, c)
    case GEncoding => OnEncoding(r, c)
    case GStandalone => OnStandalone(r, c)
  }
}
