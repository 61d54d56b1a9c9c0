// The JSON tokenizer of src/c/json.c as a function from text to tokens, and what every token list it
// makes satisfies, whatever the text.
module JsonTokens {
  import opened Bytes
  import opened Options

  datatype Kind = Undefined | Object | Arr | Plain | Escaped | Primitive

  datatype Token = Token(kind: Kind, start: int, end: int, size: nat, parent: int)

  /** What calloc leaves in a token. */
  const ZERO: Token := Token(Undefined, 0, 0, 0, 0)

  const NOMEM := -1
  const INVAL := -2
  const PART := -3

  /** The parser and the tokens allocated so far; toknext is their number. */
  datatype Parser = Parser(pos: nat, toks: seq<Token>, super: int, count: nat)

  datatype Result = Ok(p: Parser) | Err(code: int)

  predicate AtEnd(js: seq<Byte>, i: nat) {
    i >= |js| || js[i] == NUL
  }

  predicate Blank(c: Byte) { c == 9 || c == 10 || c == 13 || c == 32 }

  predicate Opens(c: Byte) { c == '{' as int || c == '[' as int }

  predicate Closes(c: Byte) { c == '}' as int || c == ']' as int }

  const COLON: Byte := ':' as int
  const COMMA: Byte := ',' as int
  const QUOTE: Byte := '"' as int
  const BACKSLASH: Byte := '\\' as int

  // ---------------------------------------------------------------- primitives and strings

  predicate Delimits(c: Byte) {
    Blank(c) || Closes(c) || c == COLON || c == COMMA
  }

  /** Where a primitive ends; none if it holds a character that no primitive may hold. */
  function PrimitiveEnd(js: seq<Byte>, i: nat): (end: Option<nat>)
    ensures end.Some? ==> i <= end.value && (i < |js| ==> end.value <= |js|)
    ensures end.Some? && !AtEnd(js, i) && !Delimits(js[i]) ==> i < end.value
    decreases |js| - i
  {
    if AtEnd(js, i) || Delimits(js[i]) then Some(i)
    else if js[i] < 32 || js[i] >= 127 then None
    else PrimitiveEnd(js, i + 1)
  }

  predicate IsHexDigit(c: Byte) { 48 <= c <= 57 || 65 <= c <= 70 || 97 <= c <= 102 }

  /** Past up to n hexadecimal digits; none if something else comes before the text ends. */
  function HexEnd(js: seq<Byte>, i: nat, n: nat): (end: Option<nat>)
    ensures end.Some? ==> i <= end.value
    decreases n
  {
    if n == 0 || AtEnd(js, i) then Some(i)
    else if IsHexDigit(js[i]) then HexEnd(js, i + 1, n - 1)
    else None
  }

  predicate SimpleEscape(c: Byte) {
    c == QUOTE || c == '/' as int || c == BACKSLASH || c == 'b' as int || c == 'f' as int || c == 'r' as int ||
    c == 'n' as int || c == 't' as int
  }

  datatype Scan = Found(end: nat, escaped: bool) | Failed(code: int)

  /** The loop of iot_json_parse_string from i on: the closing quote, and whether there was a backslash. */
  function StringEnd(js: seq<Byte>, i: nat, escaped: bool): (s: Scan)
    ensures s.Found? ==> i <= s.end < |js| && js[s.end] == QUOTE
    ensures s.Failed? ==> s.code == INVAL || s.code == PART
    decreases |js| - i
  {
    if AtEnd(js, i) then Failed(PART)
    else if js[i] == QUOTE then Found(i, escaped)
    else if js[i] == BACKSLASH && i + 1 < |js| then
      if SimpleEscape(js[i + 1]) then StringEnd(js, i + 2, true)
      else if js[i + 1] == 'u' as int then
        match HexEnd(js, i + 2, 4)
        case None => Failed(INVAL)
        case Some(end) => StringEnd(js, end, true)
      else Failed(INVAL)
    else StringEnd(js, i + 1, escaped)
  }

  // ---------------------------------------------------------------- containers

  predicate Open(t: Token) {
    t.start != -1 && t.end == -1
  }

  ghost predicate Sane(p: Parser) {
    && -1 <= p.super < |p.toks|
    && ParentsBefore(p.toks)
  }

  ghost predicate ParentsBefore(toks: seq<Token>) {
    forall i :: 0 <= i < |toks| ==> -1 <= toks[i].parent < i
  }

  /** One more child for the token `super`, if there is one. */
  function Bump(toks: seq<Token>, super: int): (bumped: seq<Token>)
    requires -1 <= super < |toks|
    ensures |bumped| == |toks|
  {
    if super == -1 then toks else toks[super := toks[super].(size := toks[super].size + 1)]
  }

  function Add(p: Parser, kind: Kind, start: int, end: int): Parser
    requires -1 <= p.super < |p.toks|
  {
    p.(toks := Bump(p.toks, p.super) + [Token(kind, start, end, 0, p.super)], count := p.count + 1)
  }

  /** The walk of a closing bracket from token i to the innermost open one. */
  function Close(p: Parser, i: nat, kind: Kind): (r: Result)
    requires i < |p.toks| && Sane(p)
    ensures r.Ok? ==> Sane(r.p) && r.p.pos == p.pos && |r.p.toks| == |p.toks|
    decreases i
  {
    var t := p.toks[i];
    if Open(t) then
      if t.kind != kind then Err(INVAL)
      else Ok(p.(toks := p.toks[i := t.(end := p.pos + 1)], super := t.parent))
    else if t.parent == -1 then
      if t.kind != kind || p.super == -1 then Err(INVAL) else Ok(p)
    else Close(p, t.parent, kind)
  }

  // ---------------------------------------------------------------- one character

  /** The body of the loop of iot_json_parse with room for `max` tokens. */
  function Step(js: seq<Byte>, max: nat, p: Parser): (r: Result)
    requires !AtEnd(js, p.pos) && Sane(p)
    ensures r.Ok? ==> Sane(r.p) && p.pos < r.p.pos
  {
    var c := js[p.pos];
    if Opens(c) then
      if |p.toks| >= max then Err(NOMEM)
      else
        Ok(Add(p, if c == '{' as int then Object else Arr, p.pos, -1).(super := |p.toks|, pos := p.pos + 1))
    else if Closes(c) then
      if p.toks == [] then Err(INVAL)
      else
        match Close(p, |p.toks| - 1, if c == '}' as int then Object else Arr)
        case Err(code) => Err(code)
        case Ok(q) => Ok(q.(pos := p.pos + 1))
    else if c == QUOTE then
      match StringEnd(js, p.pos + 1, false)
      case Failed(code) => Err(code)
      case Found(end, escaped) =>
        if |p.toks| >= max then Err(NOMEM)
        else Ok(Add(p, if escaped then Escaped else Plain, p.pos + 1, end).(pos := end + 1))
    else if Blank(c) then Ok(p.(pos := p.pos + 1))
    else if c == COLON then Ok(p.(super := |p.toks| - 1, pos := p.pos + 1))
    else if c == COMMA then
      Ok(p.(super := if p.super != -1 && p.toks[p.super].kind != Arr && p.toks[p.super].kind != Object
                     then p.toks[p.super].parent else p.super,
            pos := p.pos + 1))
    else
      match PrimitiveEnd(js, p.pos)
      case None => Err(INVAL)
      case Some(end) =>
        if |p.toks| >= max then Err(NOMEM)
        else Ok(Add(p, Primitive, p.pos, end).(pos := end))
  }

  datatype Outcome = Tokens(toks: seq<Token>, count: nat) | Error(code: int)

  predicate SomeOpen(toks: seq<Token>) {
    exists i :: 0 <= i < |toks| && Open(toks[i])
  }

  /** iot_json_parse from the parser's position on. */
  function Tokenize(js: seq<Byte>, max: nat, p: Parser): Outcome
    requires Sane(p)
    decreases |js| - p.pos
  {
    if AtEnd(js, p.pos) then
      if SomeOpen(p.toks) then Error(PART) else Tokens(p.toks, p.count)
    else
      match Step(js, max, p)
      case Err(code) => Error(code)
      case Ok(q) => Tokenize(js, max, q)
  }

  const START: Parser := Parser(0, [], -1, 0)

  // ---------------------------------------------------------------- what holds on every text

  /** How many tokens have token i as their parent. */
  function Children(toks: seq<Token>, i: int): nat {
    if toks == [] then 0
    else Children(toks[..|toks| - 1], i) + (if toks[|toks| - 1].parent == i then 1 else 0)
  }

  lemma {:induction false} SameParents(a: seq<Token>, b: seq<Token>, i: int)
    requires |a| == |b| && forall j :: 0 <= j < |a| ==> a[j].parent == b[j].parent
    ensures Children(a, i) == Children(b, i)
  {
    if a != [] { SameParents(a[..|a| - 1], b[..|b| - 1], i); }
  }

  ghost predicate Family(toks: seq<Token>) {
    forall i :: 0 <= i < |toks| ==> toks[i].size == Children(toks, i)
  }

  ghost predicate Invariant(p: Parser, max: nat) {
    Sane(p) && Family(p.toks) && p.count == |p.toks| <= max
  }

  lemma {:induction false} NoChildrenYet(toks: seq<Token>, n: nat)
    requires |toks| <= n && ParentsBefore(toks)
    ensures Children(toks, n) == 0
  {
    if toks != [] { NoChildrenYet(toks[..|toks| - 1], n); }
  }

  lemma ChildrenNext(toks: seq<Token>, t: Token, i: int)
    ensures Children(toks + [t], i) == Children(toks, i) + if t.parent == i then 1 else 0
  {
    assert (toks + [t])[..|toks|] == toks;
  }

  lemma AddKeeps(p: Parser, kind: Kind, start: int, end: int, max: nat)
    requires Invariant(p, max) && |p.toks| < max
    ensures var q := Add(p, kind, start, end); Family(q.toks) && q.count == |q.toks| <= max
  {
    var t := Token(kind, start, end, 0, p.super);
    var bumped := Bump(p.toks, p.super);
    var q := Add(p, kind, start, end);
    forall i | 0 <= i < |q.toks| ensures q.toks[i].size == Children(q.toks, i) {
      ChildrenNext(bumped, t, i);
      SameParents(bumped, p.toks, i);
      if i == |p.toks| { NoChildrenYet(p.toks, i); }
    }
  }

  lemma {:induction false} CloseKeeps(p: Parser, i: nat, kind: Kind, max: nat)
    requires Invariant(p, max) && i < |p.toks|
    ensures Close(p, i, kind).Ok? ==> Invariant(Close(p, i, kind).p, max)
    decreases i
  {
    var t := p.toks[i];
    if Open(t) {
      if t.kind == kind {
        var q := Close(p, i, kind).p;
        forall j | 0 <= j < |q.toks| ensures q.toks[j].size == Children(q.toks, j) {
          SameParents(q.toks, p.toks, j);
        }
      }
    } else if t.parent != -1 {
      CloseKeeps(p, t.parent, kind, max);
    }
  }

  lemma StepKeeps(js: seq<Byte>, max: nat, p: Parser)
    requires !AtEnd(js, p.pos) && Invariant(p, max)
    ensures Step(js, max, p).Ok? ==> Invariant(Step(js, max, p).p, max)
  {
    var c := js[p.pos];
    hide Children, Close, StringEnd, PrimitiveEnd, Family, Add;
    if Opens(c) {
      if |p.toks| < max { AddKeeps(p, if c == '{' as int then Object else Arr, p.pos, -1, max); }
    } else if Closes(c) {
      if p.toks != [] { CloseKeeps(p, |p.toks| - 1, if c == '}' as int then Object else Arr, max); }
    } else if c == QUOTE {
      match StringEnd(js, p.pos + 1, false)
      case Failed(_) =>
      case Found(end, escaped) =>
        if |p.toks| < max { AddKeeps(p, if escaped then Escaped else Plain, p.pos + 1, end, max); }
    } else if !Blank(c) && c != COLON && c != COMMA {
      match PrimitiveEnd(js, p.pos)
      case None =>
      case Some(end) => if |p.toks| < max { AddKeeps(p, Primitive, p.pos, end, max); }
    }
  }

  /** Whatever the text, valid or not: when the tokenizer succeeds no container is open, every parent comes
      before its children, every size is the number of children, and the count is the number of tokens. */
  lemma {:induction false} EveryText(js: seq<Byte>, max: nat, p: Parser)
    requires Invariant(p, max)
    ensures var o := Tokenize(js, max, p);
      o.Tokens? ==>
        ParentsBefore(o.toks) && Family(o.toks) && !SomeOpen(o.toks) && o.count == |o.toks| <= max
    ensures Tokenize(js, max, p).Error? ==> Tokenize(js, max, p).code in {NOMEM, INVAL, PART}
    decreases |js| - p.pos
  {
    if !AtEnd(js, p.pos) {
      StepKeeps(js, max, p);
      StepCodes(js, max, p);
      hide Step, Children;
      match Step(js, max, p)
      case Err(_) =>
      case Ok(q) => EveryText(js, max, q);
    }
  }

  lemma {:induction false} CloseCodes(p: Parser, i: nat, kind: Kind)
    requires i < |p.toks| && Sane(p)
    ensures Close(p, i, kind).Err? ==> Close(p, i, kind).code == INVAL
    decreases i
  {
    var t := p.toks[i];
    if !Open(t) && t.parent != -1 { CloseCodes(p, t.parent, kind); }
  }

  lemma StepCodes(js: seq<Byte>, max: nat, p: Parser)
    requires !AtEnd(js, p.pos) && Sane(p)
    ensures Step(js, max, p).Err? ==> Step(js, max, p).code in {NOMEM, INVAL, PART}
  {
    if p.toks != [] {
      CloseCodes(p, |p.toks| - 1, Object);
      CloseCodes(p, |p.toks| - 1, Arr);
    }
    hide Close, StringEnd, PrimitiveEnd, Add;
  }

  /** Tokens mark parts of the text. */
  ghost predicate Within(toks: seq<Token>, js: seq<Byte>) {
    forall i :: 0 <= i < |toks| ==>
      0 <= toks[i].start <= |js| && (toks[i].end == -1 || toks[i].start <= toks[i].end <= |js|)
  }

  lemma {:induction false} CloseWithin(p: Parser, i: nat, kind: Kind, js: seq<Byte>)
    requires i < |p.toks| && Sane(p) && Within(p.toks, js) && p.pos < |js|
    requires forall j :: 0 <= j < |p.toks| ==> p.toks[j].start <= p.pos
    ensures Close(p, i, kind).Ok? ==> Within(Close(p, i, kind).p.toks, js)
    ensures Close(p, i, kind).Ok? ==> forall j :: 0 <= j < |p.toks| ==> Close(p, i, kind).p.toks[j].start <= p.pos
    decreases i
  {
    var t := p.toks[i];
    if !Open(t) && t.parent != -1 { CloseWithin(p, t.parent, kind, js); }
  }

  lemma StepWithin(js: seq<Byte>, max: nat, p: Parser)
    requires !AtEnd(js, p.pos) && Sane(p) && Within(p.toks, js)
    requires forall j :: 0 <= j < |p.toks| ==> p.toks[j].start <= p.pos
    ensures Step(js, max, p).Ok? ==> Within(Step(js, max, p).p.toks, js)
    ensures Step(js, max, p).Ok? ==>
      forall j :: 0 <= j < |Step(js, max, p).p.toks| ==> Step(js, max, p).p.toks[j].start <= Step(js, max, p).p.pos
  {
    if p.toks != [] {
      CloseWithin(p, |p.toks| - 1, Object, js);
      CloseWithin(p, |p.toks| - 1, Arr, js);
    }
    hide Close, StringEnd, PrimitiveEnd;
  }

  lemma {:induction false} EveryTokenWithin(js: seq<Byte>, max: nat, p: Parser)
    requires Sane(p) && Within(p.toks, js) && forall j :: 0 <= j < |p.toks| ==> p.toks[j].start <= p.pos
    ensures Tokenize(js, max, p).Tokens? ==> Within(Tokenize(js, max, p).toks, js)
    decreases |js| - p.pos
  {
    if !AtEnd(js, p.pos) {
      StepWithin(js, max, p);
      hide Step;
      match Step(js, max, p)
      case Err(_) =>
      case Ok(q) => EveryTokenWithin(js, max, q);
    }
  }
}
