// What the tokens of any text mark that the JSON tokenizer accepts, valid JSON or not.
module JsonMarks {
  import opened Bytes
  import opened Options
  import opened JsonTokens

  // ---------------------------------------------------------------- strings

  /** The inside of a string of RFC 8259, section 7, but for control characters, which may stand in it as they are. */
  predicate Quotable(s: seq<Byte>) {
    s == [] ||
    (if s[0] == 0x5C then
       |s| > 1 && if s[1] == 0x75 then |s| > 5 && (forall i :: 2 <= i < 6 ==> Hexadecimal(s[i])) && Quotable(s[6..])
                  else Named(s[1]) && Quotable(s[2..])
     else s[0] != 0x22 && Quotable(s[1..]))
  }

  predicate Hexadecimal(c: Byte) { 0x30 <= c <= 0x39 || 0x41 <= c <= 0x46 || 0x61 <= c <= 0x66 }

  /** The quote, the backslash, the slash, and b, f, n, r and t. */
  predicate Named(c: Byte) {
    c == 0x22 || c == 0x5C || c == 0x2F || c == 0x62 || c == 0x66 || c == 0x6E || c == 0x72 || c == 0x74
  }

  lemma {:induction false} HexRun(js: seq<Byte>, i: nat, n: nat)
    ensures var e := HexEnd(js, i, n);
      e.Some? ==>
        && e.value <= i + n && (i <= |js| ==> e.value <= |js|) && (e.value == i + n || AtEnd(js, e.value))
        && forall j :: i <= j < e.value && j < |js| ==> Hexadecimal(js[j])
    decreases n
  {
    if n > 0 && !AtEnd(js, i) && IsHexDigit(js[i]) { HexRun(js, i + 1, n - 1); }
  }

  /** A string that is found is one of the grammar; it is marked as escaped if there is a backslash in it. */
  lemma {:induction false} StringIsQuotable(js: seq<Byte>, i: nat, escaped: bool)
    requires i <= |js| && StringEnd(js, i, escaped).Found?
    ensures var s := StringEnd(js, i, escaped);
      Quotable(js[i..s.end]) && (s.escaped <==> escaped || 0x5C in js[i..s.end])
    decreases |js| - i
  {
    var end := StringEnd(js, i, escaped).end;
    var s := js[i..end];
    if js[i] == QUOTE {
      assert s == [];
    } else if js[i] == BACKSLASH && i + 1 < |js| {
      assert s != [] && s[0] == 0x5C by { EscapeInside(js, i, escaped); }
      if SimpleEscape(js[i + 1]) {
        StringIsQuotable(js, i + 2, true);
        assert s[2..] == js[i + 2..end];
      } else {
        HexRun(js, i + 2, 4);
        var h := HexEnd(js, i + 2, 4).value;
        StringIsQuotable(js, h, true);
        assert h == i + 6;
        assert s[6..] == js[i + 6..end];
      }
    } else {
      StringIsQuotable(js, i + 1, escaped);
      assert s == [js[i]] + js[i + 1..end];
    }
  }

  lemma EscapeInside(js: seq<Byte>, i: nat, escaped: bool)
    requires i + 1 < |js| && js[i] == BACKSLASH && StringEnd(js, i, escaped).Found?
    ensures i + 2 <= StringEnd(js, i, escaped).end
  {
  }

  lemma {:induction false} PrimitiveRun(js: seq<Byte>, i: nat)
    requires i <= |js| && PrimitiveEnd(js, i).Some?
    ensures var end := PrimitiveEnd(js, i).value;
      end <= |js| && (AtEnd(js, end) || Delimits(js[end])) && forall j :: i <= j < end ==> InPrimitive(js[j])
    decreases |js| - i
  {
    if !AtEnd(js, i) && !Delimits(js[i]) { PrimitiveRun(js, i + 1); }
  }

  /** Printable ASCII but space, comma, colon and closing brackets. */
  predicate InPrimitive(c: Byte) {
    0x20 < c < 0x7F && c != 0x2C && c != 0x3A && c != 0x5D && c != 0x7D
  }

  // ---------------------------------------------------------------- what a token marks

  predicate Between(js: seq<Byte>, t: Token) { 0 <= t.start <= |js| && (t.end == -1 || t.start <= t.end <= |js|) }

  /** A container from its opening to its closing bracket, a string between its quotes, a primitive as a whole. */
  ghost predicate Marks(js: seq<Byte>, t: Token) {
    && Between(js, t)
    && match t.kind
       case Object => t.start < |js| && js[t.start] == 0x7B && (t.end != -1 ==> t.end > t.start + 1 && js[t.end - 1] == 0x7D)
       case Arr => t.start < |js| && js[t.start] == 0x5B && (t.end != -1 ==> t.end > t.start + 1 && js[t.end - 1] == 0x5D)
       case Primitive => t.end > t.start && forall i :: t.start <= i < t.end ==> InPrimitive(js[i])
       case Undefined => false
       case _ =>
         && t.start > 0 && js[t.start - 1] == 0x22 && t.end >= t.start && t.end < |js| && js[t.end] == 0x22
         && Quotable(js[t.start..t.end]) && (t.kind == Escaped <==> 0x5C in js[t.start..t.end])
  }

  ghost predicate AllMark(js: seq<Byte>, toks: seq<Token>, pos: nat) {
    forall i :: 0 <= i < |toks| ==> Marks(js, toks[i]) && toks[i].start < pos + 1 && (Open(toks[i]) ==> toks[i].start < pos)
  }

  lemma {:induction false} CloseMarks(p: Parser, i: nat, kind: Kind, js: seq<Byte>)
    requires i < |p.toks| && Sane(p) && AllMark(js, p.toks, p.pos) && p.pos < |js|
    requires (kind == Object && js[p.pos] == 0x7D) || (kind == Arr && js[p.pos] == 0x5D)
    ensures Close(p, i, kind).Ok? ==> AllMark(js, Close(p, i, kind).p.toks, p.pos)
    decreases i
  {
    hide Quotable, InPrimitive;
    var t := p.toks[i];
    if Open(t) {
      if t.kind == kind {
        assert Marks(js, t);
        assert Marks(js, t.(end := p.pos + 1));
      }
    } else if t.parent != -1 {
      CloseMarks(p, t.parent, kind, js);
    }
  }

  lemma AddMarks(js: seq<Byte>, p: Parser, kind: Kind, start: int, end: int, pos: nat)
    requires Sane(p) && AllMark(js, p.toks, p.pos) && p.pos < pos
    requires Marks(js, Token(kind, start, end, 0, p.super)) && start <= pos && (end == -1 ==> start < pos)
    ensures AllMark(js, Add(p, kind, start, end).toks, pos)
  {
    hide Quotable, InPrimitive;
    var q := Add(p, kind, start, end);
    forall i | 0 <= i < |q.toks|
      ensures Marks(js, q.toks[i]) && q.toks[i].start < pos + 1 && (Open(q.toks[i]) ==> q.toks[i].start < pos)
    {
      if i < |p.toks| { assert Marks(js, p.toks[i]); }
    }
  }

  lemma StringMarks(js: seq<Byte>, p: Parser)
    requires p.pos < |js| && js[p.pos] == QUOTE && StringEnd(js, p.pos + 1, false).Found?
    ensures var s := StringEnd(js, p.pos + 1, false);
      Marks(js, Token(if s.escaped then Escaped else Plain, p.pos + 1, s.end, 0, p.super))
  {
    StringIsQuotable(js, p.pos + 1, false);
    hide Quotable, StringEnd;
  }

  lemma PrimitiveMarks(js: seq<Byte>, p: Parser)
    requires !AtEnd(js, p.pos) && !Delimits(js[p.pos]) && PrimitiveEnd(js, p.pos).Some?
    ensures Marks(js, Token(Primitive, p.pos, PrimitiveEnd(js, p.pos).value, 0, p.super))
    ensures p.pos < PrimitiveEnd(js, p.pos).value
  {
    PrimitiveRun(js, p.pos);
    hide InPrimitive;
  }

  lemma StepMarks(js: seq<Byte>, max: nat, p: Parser)
    requires !AtEnd(js, p.pos) && Sane(p) && AllMark(js, p.toks, p.pos)
    ensures Step(js, max, p).Ok? ==> AllMark(js, Step(js, max, p).p.toks, Step(js, max, p).p.pos)
  {
    hide Close, StringEnd, PrimitiveEnd, Marks, Add;
    var c := js[p.pos];
    if Step(js, max, p).Ok? {
      if Opens(c) {
        OpenMarks(js, p, c);
        AddMarks(js, p, if c == '{' as int then Object else Arr, p.pos, -1, p.pos + 1);
      } else if Closes(c) {
        CloseMarks(p, |p.toks| - 1, if c == '}' as int then Object else Arr, js);
      } else if c == QUOTE {
        var s := StringEnd(js, p.pos + 1, false);
        StringMarks(js, p);
        AddMarks(js, p, if s.escaped then Escaped else Plain, p.pos + 1, s.end, s.end + 1);
      } else if !Blank(c) && c != COLON && c != COMMA {
        PrimitiveMarks(js, p);
        AddMarks(js, p, Primitive, p.pos, PrimitiveEnd(js, p.pos).value, PrimitiveEnd(js, p.pos).value);
      }
    }
  }

  lemma OpenMarks(js: seq<Byte>, p: Parser, c: Byte)
    requires p.pos < |js| && js[p.pos] == c && Opens(c)
    ensures Marks(js, Token(if c == '{' as int then Object else Arr, p.pos, -1, 0, p.super))
  {
  }

  lemma {:induction false} MarkedAlong(js: seq<Byte>, max: nat, p: Parser)
    requires Sane(p) && AllMark(js, p.toks, p.pos)
    ensures var o := Tokenize(js, max, p);
      o.Tokens? ==> forall i :: 0 <= i < |o.toks| ==> Marks(js, o.toks[i]) && !Open(o.toks[i])
    decreases |js| - p.pos
  {
    hide Marks, Step;
    if !AtEnd(js, p.pos) {
      StepMarks(js, max, p);
      match Step(js, max, p)
      case Err(_) =>
      case Ok(q) => MarkedAlong(js, max, q);
    }
  }

  /** Of every text that is accepted, valid or not: objects and arrays are marked from bracket to bracket of the same
      kind, strings are those of the grammar but for control characters, primitives are printable ASCII. */
  lemma EveryTokenMarks(js: seq<Byte>, max: nat)
    ensures var o := Tokenize(js, max, START);
      o.Tokens? ==> forall i :: 0 <= i < |o.toks| ==> Marks(js, o.toks[i]) && o.toks[i].end != -1
  {
    MarkedAlong(js, max, START);
    hide Quotable, InPrimitive, Tokenize;
  }
}
