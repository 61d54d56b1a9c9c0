// What the errors of the JSON tokenizer mean, on any text: a text is invalid if no continuation helps, partial if one
// does, and too long for the tokens if more of them do.
module JsonErrors {
  import opened Bytes
  import opened Options
  import opened Sequences
  import opened JsonTokens

  // ---------------------------------------------------------------- an invalid text stays invalid

  lemma {:induction false} HexLonger(js: seq<Byte>, more: seq<Byte>, i: nat, n: nat)
    requires i <= |js|
    ensures HexEnd(js, i, n) == None ==> HexEnd(js + more, i, n) == None
    ensures HexEnd(js, i, n).Some? && HexEnd(js, i, n).value < |js| ==> HexEnd(js + more, i, n) == HexEnd(js, i, n)
    ensures HexEnd(js, i, n).Some? ==> HexEnd(js, i, n).value <= |js| && HexEnd(js, i, n).value <= i + n
    decreases n
  {
    if n > 0 && !AtEnd(js, i) && IsHexDigit(js[i]) { HexLonger(js, more, i + 1, n - 1); }
  }

  lemma {:induction false} StringLonger(js: seq<Byte>, more: seq<Byte>, i: nat, escaped: bool)
    ensures StringEnd(js, i, escaped).Found? || StringEnd(js, i, escaped) == Failed(INVAL) ==>
      StringEnd(js + more, i, escaped) == StringEnd(js, i, escaped)
    decreases |js| - i
  {
    if !AtEnd(js, i) && js[i] != QUOTE {
      if js[i] == BACKSLASH && i + 1 < |js| {
        if SimpleEscape(js[i + 1]) {
          StringLonger(js, more, i + 2, true);
        } else if js[i + 1] == 'u' as int {
          HexLonger(js, more, i + 2, 4);
          if HexEnd(js, i + 2, 4).Some? { StringLonger(js, more, HexEnd(js, i + 2, 4).value, true); }
        }
      } else {
        StringLonger(js, more, i + 1, escaped);
      }
    }
  }

  lemma {:induction false} PrimitiveLonger(js: seq<Byte>, more: seq<Byte>, i: nat)
    requires i <= |js|
    ensures PrimitiveEnd(js, i) == None ==> PrimitiveEnd(js + more, i) == None
    ensures PrimitiveEnd(js, i).Some? ==> PrimitiveEnd(js, i).value <= |js|
    ensures PrimitiveEnd(js, i).Some? && (PrimitiveEnd(js, i).value < |js| || (more != [] && Delimits(more[0]))) ==>
      PrimitiveEnd(js + more, i) == PrimitiveEnd(js, i)
    decreases |js| - i
  {
    if i < |js| && !AtEnd(js, i) && !Delimits(js[i]) { PrimitiveLonger(js, more, i + 1); }
  }

  /** A step is the same in a longer text, and with more room, unless it needs to know what follows. */
  lemma StepLonger(js: seq<Byte>, more: seq<Byte>, max: nat, max': nat, p: Parser)
    requires !AtEnd(js, p.pos) && Sane(p) && max <= max'
    ensures Step(js, max, p) == Err(INVAL) ==> Step(js + more, max', p) == Err(INVAL)
    ensures Step(js, max, p).Ok? && (Step(js, max, p).p.pos < |js| || (more != [] && Delimits(more[0]))) ==>
      Step(js + more, max', p) == Step(js, max, p)
    ensures Step(js, max, p).Ok? ==> Step(js, max, p).p.pos <= |js|
  {
    StringLonger(js, more, p.pos + 1, false);
    PrimitiveLonger(js, more, p.pos);
    hide StringEnd, PrimitiveEnd, Close, Add, Blank, Delimits;
  }

  /** An invalid text stays invalid, whatever follows. */
  lemma {:induction false} InvalidStays(js: seq<Byte>, more: seq<Byte>, max: nat, p: Parser)
    requires Sane(p) && Tokenize(js, max, p) == Error(INVAL)
    ensures Tokenize(js + more, max, p) == Error(INVAL)
    decreases |js| - p.pos
  {
    hide Step;
    StepLonger(js, more, max, max, p);
    match Step(js, max, p)
    case Err(_) =>
    case Ok(q) =>
      assert q.pos < |js|;
      InvalidStays(js, more, max, q);
  }

  // ---------------------------------------------------------------- room for the tokens

  lemma {:induction false} TokensGrow(js: seq<Byte>, max: nat, p: Parser)
    requires Sane(p) && Tokenize(js, max, p).Tokens?
    ensures |Tokenize(js, max, p).toks| >= |p.toks|
    decreases |js| - p.pos
  {
    if !AtEnd(js, p.pos) {
      StepGrows(js, max, p);
      hide Step;
      TokensGrow(js, max, Step(js, max, p).p);
    }
  }

  lemma StepGrows(js: seq<Byte>, max: nat, p: Parser)
    requires !AtEnd(js, p.pos) && Sane(p)
    ensures Step(js, max, p).Ok? ==> |Step(js, max, p).p.toks| >= |p.toks|
  {
    hide StringEnd, PrimitiveEnd, Close;
  }

  /** With more room a step does the same, or takes a token that there was no room for. */
  lemma StepRoom(js: seq<Byte>, max: nat, more: nat, p: Parser)
    requires !AtEnd(js, p.pos) && Sane(p) && max <= more
    ensures Step(js, max, p) == Err(NOMEM) || Step(js, max, p) == Step(js, more, p)
    ensures Step(js, max, p) == Err(NOMEM) && Step(js, more, p).Ok? ==> |p.toks| >= max && |Step(js, more, p).p.toks| > |p.toks|
  {
    NotForRoom(js, max, p);
    hide StringEnd, PrimitiveEnd, Close;
  }

  lemma NotForRoom(js: seq<Byte>, max: nat, p: Parser)
    requires !AtEnd(js, p.pos) && Sane(p)
    ensures Closes(js[p.pos]) ==> Step(js, max, p) != Err(NOMEM)
    ensures js[p.pos] == QUOTE && StringEnd(js, p.pos + 1, false).Failed? ==> Step(js, max, p) != Err(NOMEM)
  {
    if p.toks != [] {
      CloseCodes(p, |p.toks| - 1, Object);
      CloseCodes(p, |p.toks| - 1, Arr);
    }
    hide StringEnd, PrimitiveEnd, Close;
  }

  /** For want of tokens a text is refused if and only if it needs more; with enough of them it makes no difference how
      many there are. */
  lemma {:induction false} RoomForTokens(js: seq<Byte>, max: nat, more: nat, p: Parser)
    requires Sane(p) && max <= more && |p.toks| <= max
    ensures Tokenize(js, max, p) == Error(NOMEM) || Tokenize(js, max, p) == Tokenize(js, more, p)
    ensures Tokenize(js, more, p).Tokens? ==> (Tokenize(js, max, p) == Error(NOMEM) <==> |Tokenize(js, more, p).toks| > max)
    decreases |js| - p.pos
  {
    if !AtEnd(js, p.pos) {
      StepRoom(js, max, more, p);
      StepTokens(js, max, p);
      hide Step;
      if Step(js, max, p).Ok? {
        RoomForTokens(js, max, more, Step(js, max, p).p);
      } else if Tokenize(js, more, p).Tokens? {
        TokensGrow(js, more, Step(js, more, p).p);
      }
    }
  }

  lemma StepTokens(js: seq<Byte>, max: nat, p: Parser)
    requires !AtEnd(js, p.pos) && Sane(p) && |p.toks| <= max
    ensures Step(js, max, p).Ok? ==> |Step(js, max, p).p.toks| <= max
  {
    hide StringEnd, PrimitiveEnd, Close;
  }

  // ---------------------------------------------------------------- open containers

  /** Token i is `from`, or its parent, or its parent's parent, and so on. */
  ghost predicate OnChain(toks: seq<Token>, from: int, i: nat)
    requires ParentsBefore(toks) && -1 <= from < |toks|
    decreases from
  {
    from >= 0 && (from == i || OnChain(toks, toks[from].parent, i))
  }

  lemma {:induction false} ChainJoins(toks: seq<Token>, a: int, b: nat, c: nat)
    requires ParentsBefore(toks) && -1 <= a < |toks| && b < |toks| && OnChain(toks, a, b) && OnChain(toks, b, c)
    ensures OnChain(toks, a, c)
    decreases a
  {
    if a != b { ChainJoins(toks, toks[a].parent, b, c); }
  }

  lemma {:induction false} ChainStays(toks: seq<Token>, toks': seq<Token>, from: int, i: nat)
    requires ParentsBefore(toks) && ParentsBefore(toks') && -1 <= from < |toks| <= |toks'|
    requires forall j :: 0 <= j < |toks| ==> toks'[j].parent == toks[j].parent
    ensures OnChain(toks', from, i) == OnChain(toks, from, i)
    decreases from
  {
    if from >= 0 && from != i { ChainStays(toks, toks', toks[from].parent, i); }
  }

  /** The current parent is above the last token; every open token is a container and above the current parent. */
  ghost predicate Chained(p: Parser) {
    && Sane(p)
    && (p.super == -1 || OnChain(p.toks, |p.toks| - 1, p.super))
    && (forall i :: 0 <= i < |p.toks| && Open(p.toks[i]) ==> OpenAbove(p, i))
  }

  ghost predicate OpenAbove(p: Parser, i: nat)
    requires Sane(p) && i < |p.toks|
  {
    p.super != -1 && OnChain(p.toks, p.super, i) && (p.toks[i].kind == Object || p.toks[i].kind == Arr)
  }

  lemma AddChains(p: Parser, kind: Kind, start: nat, end: int, super: int)
    requires Chained(p) && (end == -1 ==> super == |p.toks| && (kind == Object || kind == Arr)) && (end != -1 ==> super == p.super)
    ensures Chained(Add(p, kind, start, end).(super := super))
  {
    var q := Add(p, kind, start, end).(super := super);
    var n := |p.toks|;
    assert ParentsBefore(q.toks);
    forall i | 0 <= i < |q.toks| && Open(q.toks[i])
      ensures OpenAbove(q, i)
    {
      if i < n {
        assert Open(p.toks[i]);
        ChainStays(p.toks, q.toks, p.super, i);
        assert OnChain(q.toks, n, i);
      }
    }
    if p.super != -1 { assert OnChain(q.toks, n, p.super); }
  }

  /** The walk of a closing bracket: it finds the innermost open token, below all the others. */
  lemma {:induction false} CloseChains(p: Parser, i: nat, kind: Kind)
    requires Sane(p) && i < |p.toks| && Close(p, i, kind).Ok?
    ensures var q := Close(p, i, kind).p;
      && q.pos == p.pos && |q.toks| == |p.toks| && (forall j :: 0 <= j < |p.toks| ==> q.toks[j].parent == p.toks[j].parent)
      && (forall j :: 0 <= j < |p.toks| ==> q.toks[j].kind == p.toks[j].kind && (Open(q.toks[j]) ==> Open(p.toks[j])))
      && (q.super == -1 || q == p || OnChain(p.toks, i, q.super))
      && (forall j :: 0 <= j < |p.toks| && Open(q.toks[j]) && OnChain(p.toks, i, j) ==>
            q != p && q.super != -1 && OnChain(p.toks, q.super, j))
    decreases i
  {
    var t := p.toks[i];
    if Open(t) {
      if t.parent >= 0 { assert OnChain(p.toks, t.parent, t.parent); }
    } else if t.parent != -1 {
      CloseChains(p, t.parent, kind);
    }
  }

  lemma ClosedChains(p: Parser, kind: Kind)
    requires Chained(p) && p.toks != [] && Close(p, |p.toks| - 1, kind).Ok?
    ensures Chained(Close(p, |p.toks| - 1, kind).p)
  {
    var last := |p.toks| - 1;
    CloseChains(p, last, kind);
    var q := Close(p, last, kind).p;
    hide Close;
    if q.super != -1 { ChainStays(p.toks, q.toks, last, q.super); }
    forall j | 0 <= j < |q.toks| && Open(q.toks[j])
      ensures OpenAbove(q, j)
    {
      assert OpenAbove(p, j);
      ChainJoins(p.toks, last, p.super, j);
      ChainStays(p.toks, q.toks, q.super, j);
    }
  }

  /** The colon and the comma. */
  lemma MovesChain(p: Parser, super: int)
    requires Chained(p)
    requires super == |p.toks| - 1 || super == p.super
      || (p.super != -1 && p.toks[p.super].kind != Arr && p.toks[p.super].kind != Object && super == p.toks[p.super].parent)
    ensures Chained(p.(super := super))
  {
    var q := p.(super := super);
    var last := |p.toks| - 1;
    if super == p.super {
      assert q == p;
    } else if super == last {
      forall j | 0 <= j < |p.toks| && Open(p.toks[j]) ensures OpenAbove(q, j) {
        assert OpenAbove(p, j);
        ChainJoins(p.toks, last, p.super, j);
      }
    } else {
      if super != -1 { ChainJoins(p.toks, last, p.super, super); }
      forall j | 0 <= j < |p.toks| && Open(p.toks[j]) ensures OpenAbove(q, j) {
        assert OpenAbove(p, j);
        assert j != p.super && OnChain(p.toks, super, j);
      }
    }
  }

  lemma StepChains(js: seq<Byte>, max: nat, p: Parser)
    requires !AtEnd(js, p.pos) && Chained(p)
    ensures Step(js, max, p).Ok? ==> Chained(Step(js, max, p).p)
  {
    hide Chained, StringEnd, PrimitiveEnd, Close, Add;
    assert Sane(p) by { ChainedIsSane(p); }
    var c := js[p.pos];
    if Step(js, max, p).Ok? {
      var q := Step(js, max, p).p;
      if Opens(c) {
        AddChains(p, if c == '{' as int then Object else Arr, p.pos, -1, |p.toks|);
        PosIsFree(Add(p, if c == '{' as int then Object else Arr, p.pos, -1).(super := |p.toks|), q.pos);
      } else if Closes(c) {
        ClosedChains(p, if c == '}' as int then Object else Arr);
        PosIsFree(Close(p, |p.toks| - 1, if c == '}' as int then Object else Arr).p, q.pos);
      } else if c == QUOTE {
        var s := StringEnd(js, p.pos + 1, false);
        AddChains(p, if s.escaped then Escaped else Plain, p.pos + 1, s.end, p.super);
        SuperStays(p, if s.escaped then Escaped else Plain, p.pos + 1, s.end);
        PosIsFree(Add(p, if s.escaped then Escaped else Plain, p.pos + 1, s.end), q.pos);
      } else if Blank(c) {
        PosIsFree(p, q.pos);
      } else if c == COLON || c == COMMA {
        MovesChain(p, q.super);
        PosIsFree(p.(super := q.super), q.pos);
      } else {
        AddChains(p, Primitive, p.pos, PrimitiveEnd(js, p.pos).value, p.super);
        SuperStays(p, Primitive, p.pos, PrimitiveEnd(js, p.pos).value);
        PosIsFree(Add(p, Primitive, p.pos, PrimitiveEnd(js, p.pos).value), q.pos);
      }
    }
  }

  lemma ChainedIsSane(p: Parser)
    requires Chained(p)
    ensures Sane(p)
  {
  }

  lemma SuperStays(p: Parser, kind: Kind, start: nat, end: int)
    requires Sane(p)
    ensures var q := Add(p, kind, start, end); q.(super := p.super) == q
  {
  }

  lemma PosIsFree(p: Parser, pos: nat)
    requires Chained(p)
    ensures Chained(p.(pos := pos))
  {
    var q := p.(pos := pos);
    forall j | 0 <= j < |q.toks| && Open(q.toks[j])
      ensures OpenAbove(q, j)
    {
      assert OpenAbove(p, j);
    }
  }

  // ---------------------------------------------------------------- a partial text can be completed

  function OpenCount(toks: seq<Token>): nat {
    if toks == [] then 0 else OpenCount(toks[1..]) + if Open(toks[0]) then 1 else 0
  }

  lemma {:induction false} OneLess(toks: seq<Token>, i: nat, t: Token)
    requires i < |toks| && Open(toks[i]) && !Open(t)
    ensures OpenCount(toks[i := t]) == OpenCount(toks) - 1
    decreases |toks|
  {
    if i == 0 {
      assert toks[0 := t][1..] == toks[1..];
    } else {
      assert toks[i := t][1..] == toks[1..][i - 1 := t];
      OneLess(toks[1..], i - 1, t);
    }
  }

  /** The bracket that closes the innermost open container works. */
  lemma {:induction false} Closing(p: Parser, i: nat, j: nat) returns (kind: Kind)
    requires Chained(p) && i < |p.toks| && j < |p.toks| && Open(p.toks[j]) && OnChain(p.toks, i, j)
    ensures (kind == Object || kind == Arr) && Close(p, i, kind).Ok?
    ensures OpenCount(Close(p, i, kind).p.toks) < OpenCount(p.toks)
    decreases i
  {
    var t := p.toks[i];
    if Open(t) {
      assert OpenAbove(p, i);
      kind := t.kind;
      OneLess(p.toks, i, t.(end := p.pos + 1));
    } else {
      kind := Closing(p, t.parent, j);
    }
  }

  lemma CloserStep(js: seq<Byte>, max: nat, p: Parser, kind: Kind)
    requires Chained(p) && p.toks != [] && p.pos < |js| && Close(p, |p.toks| - 1, kind).Ok?
    requires (kind == Object && js[p.pos] == 0x7D) || (kind == Arr && js[p.pos] == 0x5D)
    ensures !AtEnd(js, p.pos) && Step(js, max, p) == Ok(Close(p, |p.toks| - 1, kind).p.(pos := p.pos + 1))
  {
    hide Close, Chained;
    ChainedIsSane(p);
  }

  /** Brackets close what is open at the end of the text. */
  lemma {:induction false} CloseAll(js: seq<Byte>, max: nat, p: Parser) returns (more: seq<Byte>)
    requires Chained(p) && p.pos == |js|
    ensures Tokenize(js + more, max, p).Tokens?
    ensures SomeOpen(p.toks) ==> more != [] && Delimits(more[0])
    decreases OpenCount(p.toks)
  {
    hide Chained, Close, Step;
    ChainedIsSane(p);
    if !SomeOpen(p.toks) {
      more := [];
      NoSuffix(js);
    } else {
      var j :| 0 <= j < |p.toks| && Open(p.toks[j]);
      var last := |p.toks| - 1;
      OpenIsBelow(p, j);
      var kind := Closing(p, last, j);
      var c: Byte := if kind == Object then 0x7D else 0x5D;
      var q := Close(p, last, kind).p.(pos := p.pos + 1);
      ClosedChains(p, kind);
      CloseChains(p, last, kind);
      PosIsFree(Close(p, last, kind).p, p.pos + 1);
      var rest := CloseAll(js + [c], max, q);
      more := [c] + rest;
      Assoc(js, [c], rest);
      assert (js + more)[p.pos] == c;
      CloserStep(js + more, max, p, kind);
    }
  }

  lemma OpenIsBelow(p: Parser, j: nat)
    requires Chained(p) && j < |p.toks| && Open(p.toks[j])
    ensures OnChain(p.toks, |p.toks| - 1, j)
  {
    assert OpenAbove(p, j);
    ChainJoins(p.toks, |p.toks| - 1, p.super, j);
  }

  lemma {:induction false} FillsUp(js: seq<Byte>, fill: seq<Byte>, i: nat, n: nat)
    requires |js| <= i && i + n <= |js| + |fill| && forall k :: 0 <= k < i + n - |js| ==> fill[k] == 0x30
    ensures HexEnd(js + fill, i, n) == Some(i + n)
    decreases n
  {
    if n > 0 {
      assert (js + fill)[i] == fill[i - |js|];
      FillsUp(js, fill, i + 1, n - 1);
    }
  }

  lemma {:induction false} HexFills(js: seq<Byte>, fill: seq<Byte>, i: nat, n: nat)
    requires i <= |js| <= i + n && NUL !in js && |fill| >= i + n - |js| && (forall k :: 0 <= k < i + n - |js| ==> fill[k] == 0x30)
    requires HexEnd(js, i, n).Some? && HexEnd(js, i, n).value == |js|
    ensures HexEnd(js + fill, i, n) == Some(i + n)
    decreases n
  {
    if n > 0 {
      if i < |js| { HexFills(js, fill, i + 1, n - 1); } else { FillsUp(js, fill, i, n); }
    }
  }

  /** What ends a string that the text breaks off in: the rest of an escape and the quote. */
  lemma {:induction false} EndString(js: seq<Byte>, i: nat, escaped: bool) returns (more: seq<Byte>)
    requires NUL !in js && i <= |js| && StringEnd(js, i, escaped) == Failed(PART)
    ensures more != [] && StringEnd(js + more, i, escaped).Found? && StringEnd(js + more, i, escaped).end == |js + more| - 1
    decreases |js| - i
  {
    if i == |js| {
      more := [QUOTE];
      assert (js + more)[i] == QUOTE;
    } else if js[i] == BACKSLASH && i + 1 < |js| {
      if SimpleEscape(js[i + 1]) {
        more := EndString(js, i + 2, true);
      } else {
        HexLonger(js, [], i + 2, 4);
        var h := HexEnd(js, i + 2, 4).value;
        if h < |js| {
          more := EndString(js, h, true);
          HexLonger(js, more, i + 2, 4);
        } else {
          more := EndHex(js, i);
        }
      }
    } else if js[i] == BACKSLASH {
      more := [BACKSLASH, QUOTE];
      assert (js + more)[i + 1] == BACKSLASH && (js + more)[i + 2] == QUOTE;
    } else {
      more := EndString(js, i + 1, escaped);
    }
  }

  lemma EndHex(js: seq<Byte>, i: nat) returns (more: seq<Byte>)
    requires NUL !in js && i + 1 < |js| && js[i] == BACKSLASH && js[i + 1] == 'u' as int && HexEnd(js, i + 2, 4) == Some(|js|)
    ensures more != []
    ensures forall escaped :: StringEnd(js + more, i, escaped).Found? && StringEnd(js + more, i, escaped).end == |js + more| - 1
  {
    var zeros: seq<Byte> := [0x30, 0x30, 0x30, 0x30];
    HexLonger(js, [], i + 2, 4);
    more := zeros[..i + 6 - |js|] + [QUOTE];
    HexFills(js, more, i + 2, 4);
    assert (js + more)[i + 6] == QUOTE;
    forall escaped
      ensures StringEnd(js + more, i, escaped).Found? && StringEnd(js + more, i, escaped).end == |js + more| - 1
    {
      assert (js + more)[i] == BACKSLASH && (js + more)[i + 1] == 'u' as int;
      assert StringEnd(js + more, i + 6, true) == Found(i + 6, true);
    }
  }

  lemma PartialString(js: seq<Byte>, max: nat, p: Parser)
    requires !AtEnd(js, p.pos) && Sane(p) && Step(js, max, p) == Err(PART)
    ensures js[p.pos] == QUOTE && StringEnd(js, p.pos + 1, false) == Failed(PART)
  {
    if p.toks != [] {
      CloseCodes(p, |p.toks| - 1, Object);
      CloseCodes(p, |p.toks| - 1, Arr);
    }
    hide StringEnd, PrimitiveEnd, Close;
  }

  /** A text of which only a part has been seen has a continuation that is accepted, with room for its tokens. */
  lemma {:induction false} PartialCompletes(js: seq<Byte>, max: nat, p: Parser) returns (more: seq<Byte>, room: nat)
    requires Chained(p) && p.pos <= |js| && NUL !in js && Sane(p) && Tokenize(js, max, p) == Error(PART)
    ensures room >= max && Tokenize(js + more, room, p).Tokens? && (p.pos == |js| ==> more != [] && Delimits(more[0]))
    decreases |js| - p.pos
  {
    hide Chained, StringEnd, Delimits;
    if p.pos == |js| {
      room := max;
      hide Step;
      more := CloseAll(js, room, p);
    } else {
      assert !AtEnd(js, p.pos);
      if Step(js, max, p).Ok? {
        var q := Step(js, max, p).p;
        StepChains(js, max, p);
        StepLonger(js, [], max, max, p);
        more, room := PartialCompletes(js, max, q);
        StepLonger(js, more, max, room, p);
        hide Step;
        assert (js + more)[p.pos] == js[p.pos];
      } else {
        PartialString(js, max, p);
        var tail := EndString(js, p.pos + 1, false);
        more, room := AfterString(js, tail, max, p);
      }
    }
  }

  lemma AfterString(js: seq<Byte>, tail: seq<Byte>, max: nat, p: Parser) returns (more: seq<Byte>, room: nat)
    requires Chained(p) && Sane(p) && p.pos < |js| && NUL !in js && js[p.pos] == QUOTE
    requires StringEnd(js + tail, p.pos + 1, false).Found? && StringEnd(js + tail, p.pos + 1, false).end == |js + tail| - 1
    ensures room >= max && Tokenize(js + more, room, p).Tokens?
  {
    hide Chained, StringEnd, Close;
    var text := js + tail;
    room := max + |p.toks| + 1;
    assert text[p.pos] == QUOTE && !AtEnd(text, p.pos);
    var q := Step(text, room, p).p;
    StepChains(text, room, p);
    var rest := CloseAll(text, room, q);
    more := tail + rest;
    Assoc(js, tail, rest);
    StringLonger(text, rest, p.pos + 1, false);
    assert (js + more)[p.pos] == QUOTE && !AtEnd(js + more, p.pos);
    assert Step(js + more, room, p) == Ok(q);
    hide Step;
  }

  lemma StartIsChained()
    ensures Chained(START)
  {
  }

  /** The three errors, for any text: invalid, no continuation is anything else; partial, some continuation is accepted;
      no memory, if and only if more tokens are needed, where they make a difference. */
  lemma ErrorsMean(js: seq<Byte>, max: nat) returns (more: seq<Byte>, room: nat)
    ensures Tokenize(js, max, START) == Error(INVAL) ==> forall next :: Tokenize(js + next, max, START) == Error(INVAL)
    ensures Tokenize(js, max, START) == Error(PART) && NUL !in js ==> Tokenize(js + more, room, START).Tokens?
    ensures forall k :: k >= max && Tokenize(js, k, START).Tokens? ==>
      Tokenize(js, max, START) == if |Tokenize(js, k, START).toks| > max then Error(NOMEM) else Tokenize(js, k, START)
  {
    hide Tokenize, Chained;
    StartIsChained();
    more, room := [], 0;
    if Tokenize(js, max, START) == Error(INVAL) {
      forall next ensures Tokenize(js + next, max, START) == Error(INVAL) { InvalidStays(js, next, max, START); }
    }
    if Tokenize(js, max, START) == Error(PART) && NUL !in js {
      more, room := PartialCompletes(js, max, START);
    }
    forall k | k >= max && Tokenize(js, k, START).Tokens?
      ensures Tokenize(js, max, START) == if |Tokenize(js, k, START).toks| > max then Error(NOMEM) else Tokenize(js, k, START)
    {
      RoomForTokens(js, max, k, START);
    }
  }
}
