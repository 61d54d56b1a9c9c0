// iot_json_parse over an array of tokens, which it fills in place.
module JsonParser {
  import opened Bytes
  import opened Options
  import opened JsonTokens

  class Tokenizer {
    var pos: nat
    var toknext: nat
    var toksuper: int
    const tokens: array<Token>
    ghost var count: nat

    /** iot_json_init */
    constructor (ts: array<Token>)
      ensures tokens == ts && Valid() && Parsed() == START && count == toknext == 0
    {
      pos, toknext, toksuper, tokens, count := 0, 0, -1, ts, 0;
    }

    ghost predicate Valid()
      reads this, tokens
    {
      toknext <= tokens.Length && Sane(Parsed())
    }

    ghost function Parsed(): Parser
      reads this, tokens
    {
      if toknext <= tokens.Length then Parser(pos, tokens[..toknext], toksuper, count) else START
    }

    /** The tokens not allocated yet are untouched. */
    twostate predicate RestKept()
      reads this, tokens
    {
      && old(toknext) <= toknext
      && forall i :: toknext <= i < tokens.Length ==> tokens[i] == old(tokens[i])
    }

    /** iot_json_alloc_token, followed by what every caller does with the token. */
    method AddToken(kind: Kind, start: int, end: int) returns (ok: bool)
      requires Valid()
      modifies this`toknext, this`count, tokens
      ensures ok <==> old(toknext) < tokens.Length
      ensures ok ==> Parsed() == Add(old(Parsed()), kind, start, end)
      ensures ok ==> toknext == old(toknext) + 1 <= tokens.Length && count == old(count) + 1
      ensures !ok ==> Parsed() == old(Parsed()) && toknext == old(toknext)
      ensures RestKept()
    {
      ok := toknext < tokens.Length;
      if ok {
        ghost var was := tokens[..toknext];
        tokens[toknext] := Token(kind, start, end, 0, toksuper);
        toknext := toknext + 1;
        count := count + 1;
        if toksuper != -1 {
          tokens[toksuper] := tokens[toksuper].(size := tokens[toksuper].size + 1);
        }
        assert tokens[..toknext] == Bump(was, toksuper) + [Token(kind, start, end, 0, toksuper)];
      }
    }

    /** The loop of iot_json_parse_primitive. */
    method FindPrimitiveEnd(js: seq<Byte>) returns (ok: bool, i: nat)
      requires !AtEnd(js, pos)
      ensures ok <==> PrimitiveEnd(js, pos).Some?
      ensures ok ==> PrimitiveEnd(js, pos) == Some(i)
    {
      i := pos;
      while !AtEnd(js, i) && !Delimits(js[i])
        invariant i <= |js| && PrimitiveEnd(js, i) == PrimitiveEnd(js, pos)
        decreases |js| - i
      {
        if js[i] < 32 || js[i] >= 127 { return false, i; }
        i := i + 1;
      }
      ok := true;
    }

    /** The loop over the digits of an escaped character. */
    method SkipHex(js: seq<Byte>, start: nat) returns (ok: bool, i: nat)
      ensures ok <==> HexEnd(js, start, 4).Some?
      ensures ok ==> HexEnd(js, start, 4) == Some(i)
    {
      i := start;
      var n := 0;
      while n < 4 && !AtEnd(js, i)
        invariant n <= 4 && HexEnd(js, i, 4 - n) == HexEnd(js, start, 4)
      {
        if !IsHexDigit(js[i]) { return false, i; }
        i := i + 1;
        n := n + 1;
      }
      ok := true;
    }

    /** The loop of iot_json_parse_string. */
    method FindStringEnd(js: seq<Byte>) returns (scan: Scan)
      ensures scan == StringEnd(js, pos + 1, false)
    {
      var i := pos + 1;
      var escaped := false;
      while !AtEnd(js, i)
        invariant StringEnd(js, i, escaped) == StringEnd(js, pos + 1, false)
        decreases |js| - i
      {
        var c := js[i];
        if c == QUOTE { return Found(i, escaped); }
        if c == BACKSLASH && i + 1 < |js| {
          escaped := true;
          if SimpleEscape(js[i + 1]) {
            i := i + 2;
          } else if js[i + 1] == 'u' as int {
            var ok, end := SkipHex(js, i + 2);
            if !ok { return Failed(INVAL); }
            i := end;
          } else {
            return Failed(INVAL);
          }
        } else {
          i := i + 1;
        }
      }
      scan := Failed(PART);
    }

    /** The walk from the last token towards the root for a closing bracket. */
    method CloseWalk(kind: Kind) returns (ok: bool)
      requires Valid() && toknext > 0
      modifies this`toksuper, tokens
      ensures ok <==> Close(old(Parsed()), old(toknext) - 1, kind).Ok?
      ensures ok ==> Close(old(Parsed()), old(toknext) - 1, kind) == Ok(Parsed())
      ensures !ok ==> Close(old(Parsed()), old(toknext) - 1, kind) == Err(INVAL)
      ensures RestKept()
    {
      ghost var p := Parsed();
      var i := toknext - 1;
      while true
        invariant 0 <= i < toknext && Parsed() == p
        invariant Close(p, i, kind) == Close(p, toknext - 1, kind)
        decreases i
      {
        var token := tokens[i];
        assert p.toks[i] == token;
        if Open(token) {
          if token.kind != kind { return false; }
          tokens[i] := token.(end := pos + 1);
          toksuper := token.parent;
          assert tokens[..toknext] == p.toks[i := token.(end := pos + 1)];
          return true;
        }
        if token.parent == -1 {
          if token.kind != kind || toksuper == -1 { return false; }
          return true;
        }
        i := token.parent;
      }
    }

    /** The loop over the finished tokens: is some container still open? */
    method AnyOpen() returns (found: bool)
      requires toknext <= tokens.Length
      ensures found <==> SomeOpen(tokens[..toknext])
    {
      var i := toknext;
      while i > 0
        invariant 0 <= i <= toknext
        invariant forall j :: i <= j < toknext ==> !Open(tokens[j])
      {
        i := i - 1;
        if Open(tokens[i]) {
          assert Open(tokens[..toknext][i]);
          return true;
        }
      }
      found := false;
    }

    /** The cases of the switch; `code` is 0 unless something is wrong. */
    method TakeChar(js: seq<Byte>) returns (code: int, counted: bool)
      requires Valid() && !AtEnd(js, pos)
      modifies this, tokens
      ensures code == 0 <==> Step(js, tokens.Length, old(Parsed())).Ok?
      ensures code != 0 ==> Step(js, tokens.Length, old(Parsed())) == Err(code)
      ensures code == 0 ==> Step(js, tokens.Length, old(Parsed())) == Ok(Parsed())
      ensures code == 0 ==> Valid() && count == old(count) + if counted then 1 else 0
      ensures code == 0 ==> RestKept()
    {
      hide PrimitiveEnd, StringEnd, Close, Bump;
      code, counted := 0, false;
      var c := js[pos];
      if Opens(c) {
        var ok := AddToken(if c == '{' as int then Object else Arr, pos, -1);
        if !ok { return NOMEM, false; }
        toksuper := toknext - 1;
        pos := pos + 1;
        counted := true;
      } else if Closes(c) {
        if toknext < 1 { return INVAL, false; }
        var ok := CloseWalk(if c == '}' as int then Object else Arr);
        if !ok { return INVAL, false; }
        pos := pos + 1;
      } else if c == QUOTE {
        var scan := FindStringEnd(js);
        if scan.Failed? { return scan.code, false; }
        var ok := AddToken(if scan.escaped then Escaped else Plain, pos + 1, scan.end);
        if !ok { return NOMEM, false; }
        pos := scan.end + 1;
        counted := true;
      } else if Blank(c) {
        pos := pos + 1;
      } else if c == COLON {
        toksuper := toknext - 1;
        pos := pos + 1;
      } else if c == COMMA {
        if toksuper != -1 && tokens[toksuper].kind != Arr && tokens[toksuper].kind != Object {
          toksuper := tokens[toksuper].parent;
        }
        pos := pos + 1;
      } else {
        var ok, end := FindPrimitiveEnd(js);
        if !ok { return INVAL, false; }
        ok := AddToken(Primitive, pos, end);
        if !ok { return NOMEM, false; }
        pos := end;
        counted := true;
      }
    }

    /** iot_json_parse: the count of tokens or the code of the error, exactly as Tokenize says. */
    method Parse(js: seq<Byte>) returns (r: int)
      requires Valid() && count == toknext
      modifies this, tokens
      ensures var o := Tokenize(js, tokens.Length, old(Parsed()));
        && (o.Error? ==> r == o.code)
        && (o.Tokens? ==> r == o.count && toknext <= tokens.Length && tokens[..toknext] == o.toks && RestKept())
    {
      var n := toknext;
      ghost var o := Tokenize(js, tokens.Length, Parsed());
      hide Step;
      while !AtEnd(js, pos)
        invariant Valid() && n == count
        invariant Tokenize(js, tokens.Length, Parsed()) == o
        invariant RestKept()
        decreases |js| - pos
      {
        var code, counted := TakeChar(js);
        if code != 0 { return code; }
        if counted { n := n + 1; }
      }
      var open := AnyOpen();
      r := if open then PART else n;
    }
  }
}
