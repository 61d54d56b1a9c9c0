// The builders of src/c/data-json.c, which advance through the tokens while they fill maps and vectors,
// proved against JsonBuilder.
module JsonLoader {
  import opened Bytes
  import opened Options
  import opened CLibrary
  import opened Sequences
  import opened DataOrder
  import opened OrderedEntries
  import opened JsonTokens
  import opened JsonText
  import opened JsonEscapes
  import opened JsonReading
  import opened JsonBuilder
  import opened JsonBounds
  import JsonParser

  // ---------------------------------------------------------------- strings

  /** The buffer holds what has been written and is zero behind it; the rest of the text decides the outcome. */
  ghost predicate Unescaping(lib: Library, text: seq<Byte>, src: nat, str: seq<Byte>, buf: seq<Byte>, dst: nat) {
    && dst <= |buf| <= src <= |text| && |str| == |text| + 1
    && str[..|buf|] == buf && (forall i :: |buf| <= i < |str| ==> str[i] == NUL)
    && Rewrite(lib, text[src..], buf, dst) == Unescape(lib, text)
  }

  /** One round of the loop that writes something. */
  lemma WriteRound(lib: Library, text: seq<Byte>, src: nat, str: seq<Byte>, buf: seq<Byte>, dst: nat, str': seq<Byte>)
    requires Unescaping(lib, text, src, str, buf, dst) && src < |text|
    requires var r := RoundOf(lib, text[src..]); r.written.Some? && dst + |r.written.value| <= |str|
    requires var out := RoundOf(lib, text[src..]).written.value; str' == str[..dst] + out + str[dst + |out|..]
    ensures var r := RoundOf(lib, text[src..]); var out := r.written.value;
      Unescaping(lib, text, src + r.taken, str', Overlay(buf, dst, out), dst + |out|)
  {
    hide RoundOf;
    var r := RoundOf(lib, text[src..]);
    assert text[src..][r.taken..] == text[src + r.taken..];
    WrittenOver(str, buf, dst, r.written.value);
    hide Overlay;
  }

  lemma WrittenOver(str: seq<Byte>, buf: seq<Byte>, dst: nat, out: seq<Byte>)
    requires dst <= |buf| <= |str| && dst + |out| <= |str| && str[..|buf|] == buf
    ensures var o := Overlay(buf, dst, out);
      var str' := str[..dst] + out + str[dst + |out|..];
      && |str'| == |str| && |o| == (if dst + |out| <= |buf| then |buf| else dst + |out|) && str'[..|o|] == o
      && forall i :: |o| <= i < |str'| ==> str'[i] == str[i]
  {
  }

  /** One round whose conversion fails. */
  lemma FailRound(lib: Library, text: seq<Byte>, src: nat, str: seq<Byte>, buf: seq<Byte>, dst: nat)
    requires Unescaping(lib, text, src, str, buf, dst) && src < |text| && RoundOf(lib, text[src..]).written == None
    ensures dst == 0 ==> Unescape(lib, text) == None
    ensures dst > 0 ==> Unescaping(lib, text, src + RoundOf(lib, text[src..]).taken, str, buf, dst - 1)
  {
    hide RoundOf;
    var n := RoundOf(lib, text[src..]).taken;
    assert text[src..][n..] == text[src + n..];
  }

  lemma {:induction false} ThenNul(s: seq<Byte>, t: seq<Byte>)
    requires forall i :: 0 <= i < |t| ==> t[i] == NUL
    ensures UpToNul(s + t) == UpToNul(s)
  {
    if s == [] {
      NoPrefix(t);
    } else {
      assert (s + t)[1..] == s[1..] + t;
      ThenNul(s[1..], t);
    }
  }

  /** iot_data_string_from_json_token. The buffer of the token's length and a terminator is never overrun at its end;
      `inside` says whether the pointer has stayed above its start. */
  method StringFromToken(lib: Library, js: seq<Byte>, token: Token) returns (str: array<Byte>, inside: bool)
    requires 0 <= token.start <= token.end <= |js|
    ensures fresh(str) && str.Length == token.end - token.start + 1
    ensures inside <==> (token.kind == Escaped ==> Above(lib, js[token.start..token.end], 0))
    ensures StringOf(lib, js, token) == if inside then Some(UpToNul(str[..])) else None
  {
    hide Unescape, RoundOf, Rewrite, Overlay, Above;
    var text := js[token.start..token.end];
    str, inside := new Byte[|text| + 1](_ => NUL), true;
    if token.kind == Escaped {
      var src: nat, dst: nat := 0, 0;
      ghost var buf: seq<Byte> := [];
      StaysInside(lib, text);
      UnescapeStarts(lib, text, str[..]);
      while src < |text|
        invariant Unescaping(lib, text, src, str[..], buf, dst)
        decreases |text| - src
      {
        var r := RoundOf(lib, text[src..]);
        if r.written.Some? {
          var out := r.written.value;
          ghost var was := str[..];
          forall i | 0 <= i < |out| {
            str[dst + i] := out[i];
          }
          assert str[..] == was[..dst] + out + was[dst + |out|..];
          WriteRound(lib, text, src, was, buf, dst, str[..]);
          buf := Overlay(buf, dst, out);
          src, dst := src + r.taken, dst + |out|;
        } else {
          FailRound(lib, text, src, str[..], buf, dst);
          if dst == 0 { return str, false; }
          src, dst := src + r.taken, dst - 1;
        }
      }
      UnescapeEnds(lib, text, str[..], buf, dst);
    } else {
      forall i | 0 <= i < |text| {
        str[i] := text[i];
      }
      assert str[..] == text + [NUL];
      ThenNul(text, [NUL]);
    }
  }

  lemma UnescapeStarts(lib: Library, text: seq<Byte>, str: seq<Byte>)
    requires |str| == |text| + 1 && forall i :: 0 <= i < |str| ==> str[i] == NUL
    ensures Unescaping(lib, text, 0, str, [], 0)
  {
    hide Rewrite;
    assert text[0..] == text;
  }

  lemma UnescapeEnds(lib: Library, text: seq<Byte>, str: seq<Byte>, buf: seq<Byte>, dst: nat)
    requires Unescaping(lib, text, |text|, str, buf, dst)
    ensures Unescape(lib, text) == Some(buf) && UpToNul(str) == UpToNul(buf)
  {
    assert text[|text|..] == [];
    hide RoundOf;
    assert str == buf + str[|buf|..];
    ThenNul(buf, str[|buf|..]);
  }

  // ---------------------------------------------------------------- numbers

  /** The bytes of the string before its terminator. */
  method Chars(str: array<Byte>) returns (s: seq<Byte>)
    ensures s == UpToNul(str[..])
  {
    var n := 0;
    assert str[0..] == str[..];
    while n < str.Length && str[n] != NUL
      invariant n <= str.Length && str[..n] + UpToNul(str[n..]) == UpToNul(str[..])
    {
      assert str[n..][1..] == str[n + 1..];
      assert str[..n] + [str[n]] == str[..n + 1];
      Assoc(str[..n], [str[n]], UpToNul(str[n + 1..]));
      n := n + 1;
    }
    NoSuffix(str[..n]);
    s := str[..n];
  }

  // ---------------------------------------------------------------- values

  class Loader {
    const lib: Library
    const js: seq<Byte>
    const tokens: array<Token>
    var next: nat

    /** A loader of the tokens of the text. */
    constructor (library: Library, text: seq<Byte>, ts: array<Token>)
      ensures lib == library && js == text && tokens == ts && next == 0
    {
      lib, js, tokens, next := library, text, ts, 0;
    }

    ghost predicate Valid()
      reads this, tokens
    {
      forall i :: 0 <= i < tokens.Length ==> 0 <= tokens[i].start <= tokens[i].end <= |js|
    }

    /** The characters of the current token; not ok if it lies behind the array or leads out of its buffer. */
    method TokenString() returns (ok: bool, chars: seq<Byte>)
      requires Valid()
      modifies this`next
      ensures ok <==> old(next) < tokens.Length && StringOf(lib, js, tokens[old(next)]).Some?
      ensures ok ==> StringOf(lib, js, tokens[old(next)]) == Some(chars) && next == old(next) + 1
    {
      hide StringOf, Above;
      ok, chars := next < tokens.Length, [];
      if ok {
        var str;
        str, ok := StringFromToken(lib, js, tokens[next]);
        next := next + 1;
        if ok { chars := Chars(str); }
      }
    }

    /** iot_data_string_from_json, without the cache. */
    method StringFromJson() returns (ok: bool, d: Data)
      requires Valid()
      modifies this`next
      ensures ok <==> old(next) < tokens.Length && StringOf(lib, js, tokens[old(next)]).Some?
      ensures ok ==> StringOf(lib, js, tokens[old(next)]).Some? && d == Str(StringOf(lib, js, tokens[old(next)]).value)
      ensures ok ==> next == old(next) + 1
    {
      hide StringOf;
      var chars;
      ok, chars := TokenString();
      d := Str(chars);
    }

    /** iot_data_primitive_from_json */
    method PrimitiveFromJson() returns (ok: bool, d: Data)
      requires Valid()
      modifies this`next
      ensures ok <==> old(next) < tokens.Length && StringOf(lib, js, tokens[old(next)]).Some?
      ensures ok ==> StringOf(lib, js, tokens[old(next)]).Some? && d == PrimitiveOf(lib, StringOf(lib, js, tokens[old(next)]).value)
      ensures ok ==> next == old(next) + 1
    {
      hide StringOf, PrimitiveOf;
      var chars;
      ok, chars := TokenString();
      d := PrimitiveOf(lib, chars);
    }

    /** iot_data_value_from_json; not ok where it reads behind the array or writes before a buffer. */
    method ValueFromJson() returns (ok: bool, d: Data)
      requires Valid()
      modifies this`next
      ensures ok <==> Value(lib, tokens[..], old(next), js).Some?
      ensures ok ==> Value(lib, tokens[..], old(next), js) == Some(Built(d, next))
      decreases tokens.Length - next, 1
    {
      hide PrimitiveOf, StringOf;
      if next >= tokens.Length { return false, Missing; }
      var token := tokens[next];
      assert tokens[..][next] == token;
      if token.kind == Primitive {
        ok, d := PrimitiveFromJson();
      } else if token.kind == Object {
        ok, d := MapFromJson();
      } else if token.kind == Arr {
        ok, d := VectorFromJson();
      } else {
        ok, d := StringFromJson();
      }
    }

    /** iot_data_map_from_json: entries are added in the order of the text. */
    method MapFromJson() returns (ok: bool, d: Data)
      requires Valid() && next < tokens.Length && tokens[next].kind == Object
      modifies this`next
      ensures ok <==> Value(lib, tokens[..], old(next), js).Some?
      ensures ok ==> Value(lib, tokens[..], old(next), js) == Some(Built(d, next))
      decreases tokens.Length - next, 0
    {
      hide StringOf, Put, Value, MembersFrom;
      ghost var toks := tokens[..];
      ObjectIs(lib, toks, next, js);
      assert toks[next] == tokens[next];
      var elements := tokens[next].size;
      var entries := [];
      ghost var whole := MembersFrom(lib, toks, next + 1, elements, js, []);
      next := next + 1;
      while elements > 0
        invariant old(next) < next && toks == tokens[..]
        invariant MembersFrom(lib, toks, next, elements, js, entries) == whole
        decreases elements
      {
        MembersIs(lib, toks, next, elements, js, entries);
        assert next < |toks| ==> toks[next] == tokens[next];
        var key, val;
        ok, key := StringFromJson();
        if !ok { return false, Missing; }
        ok, val := ValueFromJson();
        if !ok { return false, Missing; }
        if val != Missing { entries := Put(entries, key, val); }
        elements := elements - 1;
      }
      MembersIs(lib, toks, next, elements, js, entries);
      ok, d := true, Map(entries);
    }

    /** iot_data_vector_from_json: the slots left over stay unset. */
    method VectorFromJson() returns (ok: bool, d: Data)
      requires Valid() && next < tokens.Length && tokens[next].kind == Arr
      modifies this`next
      ensures ok <==> Value(lib, tokens[..], old(next), js).Some?
      ensures ok ==> Value(lib, tokens[..], old(next), js) == Some(Built(d, next))
      decreases tokens.Length - next, 0
    {
      hide Value, ItemsFrom, Unset;
      ghost var toks := tokens[..];
      ArrayValue(lib, toks, next, js);
      assert toks[next] == tokens[next];
      var size := tokens[next].size;
      var elements, index := size, 0;
      var vector := new Data[size](_ => Missing);
      ghost var whole := ItemsFrom(lib, toks, next + 1, size, js);
      next := next + 1;
      RestStarts(lib, toks, next, size, js);
      while elements > 0
        invariant old(next) < next && toks == tokens[..]
        invariant index + elements <= size
        invariant Rest(lib, toks, next, elements, js, vector[..index], whole)
        invariant forall i :: index <= i < size ==> vector[i] == Missing
        decreases elements
      {
        RestNext(lib, toks, next, elements, js, vector[..index], whole);
        var val;
        ok, val := ValueFromJson();
        if !ok { return false, Missing; }
        if val != Missing {
          ghost var was := vector[..index];
          vector[index] := val;
          index := index + 1;
          assert vector[..index] == was + [val];
        }
        elements := elements - 1;
      }
      RestEnds(lib, toks, next, js, vector[..index], whole);
      UnsetAt(size - index);
      assert vector[..] == vector[..index] + Unset(size - index);
      ok, d := true, Vector(vector[..]);
    }
  }

  /** The items read and those to come are the items of the whole list. */
  ghost predicate Rest(lib: Library, toks: seq<Token>, k: nat, n: nat, js: seq<Byte>, done: seq<Data>, whole: Option<BuiltItems>) {
    var rest := ItemsFrom(lib, toks, k, n, js);
    whole == if rest.Some? then Some(BuiltItems(done + rest.value.values, rest.value.next)) else None
  }

  lemma RestStarts(lib: Library, toks: seq<Token>, k: nat, n: nat, js: seq<Byte>)
    ensures Rest(lib, toks, k, n, js, [], ItemsFrom(lib, toks, k, n, js))
  {
    var items := ItemsFrom(lib, toks, k, n, js);
    if items.Some? { NoPrefix(items.value.values); }
    hide ItemsFrom;
  }

  lemma RestEnds(lib: Library, toks: seq<Token>, k: nat, js: seq<Byte>, done: seq<Data>, whole: Option<BuiltItems>)
    requires Rest(lib, toks, k, 0, js, done, whole)
    ensures whole == Some(BuiltItems(done, k))
  {
    NoSuffix(done);
  }

  lemma ArrayValue(lib: Library, toks: seq<Token>, k: nat, js: seq<Byte>)
    requires k < |toks| && toks[k].kind == Arr
    ensures var items := ItemsFrom(lib, toks, k + 1, toks[k].size, js);
      Value(lib, toks, k, js) ==
        if items.Some? then Some(Built(Vector(items.value.values + Unset(toks[k].size - |items.value.values|)), items.value.next))
        else None
  {
    hide ItemsFrom, Unset;
  }

  lemma RestNext(lib: Library, toks: seq<Token>, k: nat, n: nat, js: seq<Byte>, done: seq<Data>, whole: Option<BuiltItems>)
    requires n > 0 && Rest(lib, toks, k, n, js, done, whole)
    ensures Value(lib, toks, k, js) == None ==> whole == None
    ensures Value(lib, toks, k, js).Some? ==>
      var v := Value(lib, toks, k, js).value;
      Rest(lib, toks, v.next, n - 1, js, if v.data == Missing then done else done + [v.data], whole)
  {
    hide Value;
    var v := Value(lib, toks, k, js);
    if v.Some? {
      var others := ItemsFrom(lib, toks, v.value.next, n - 1, js);
      if others.Some? { Assoc(done, [v.value.data], others.value.values); }
    }
  }

  /** The loop that counts brackets, commas and colons. */
  method CountTokens(js: seq<Byte>) returns (count: nat)
    ensures count == Estimate(js)
  {
    count := 1;
    assert js[0..] == js;
    for i := 0 to |js|
      invariant count + Weights(js[i..]) == Estimate(js)
    {
      assert js[i..][1..] == js[i + 1..];
      var c := js[i];
      if c == COMMA || c == Ch('{') {
        count := count + 1;
      } else if c == COLON || c == Ch('[') {
        count := count + 2;
      }
    }
  }

  /** iot_data_from_json on a C string; not ok where it accesses memory that was not allocated. */
  method FromJson(lib: Library, js: seq<Byte>) returns (ok: bool, d: Data)
    ensures ok <==> JsonBuilder.FromJson(lib, js).Some?
    ensures ok ==> JsonBuilder.FromJson(lib, js) == Some(d)
  {
    hide Value, Tokenize, Estimate, Allocated;
    ok, d := true, Null;
    if js != [] {
      var count := CountTokens(js);
      var tokens := new Token[count](_ => ZERO);
      var parser := new JsonParser.Tokenizer(tokens);
      assert tokens[..0] == [];
      var used := parser.Parse(js);
      EveryText(js, count, START);
      EveryTokenEnds(js, count);
      if 0 < used <= count {
        assert forall i :: 0 <= i < used ==> tokens[i] == tokens[..used][i];
        WholeArray(tokens[..], used);
        var loader := new Loader(lib, js, tokens);
        var value;
        ok, value := loader.ValueFromJson();
        if ok && value != Missing { d := value; }
      }
    }
  }

  lemma WholeArray(toks: seq<Token>, used: nat)
    requires used <= |toks| && forall i :: used <= i < |toks| ==> toks[i] == ZERO
    ensures Allocated(toks[..used], |toks|) == toks
  {
    ZerosAre(toks[used..]);
  }

  lemma {:induction false} ZerosAre(toks: seq<Token>)
    requires forall i :: 0 <= i < |toks| ==> toks[i] == ZERO
    ensures toks == Zeros(|toks|)
  {
    if toks != [] { ZerosAre(toks[1..]); }
  }

  /** A token that is not open has an end within the text. */
  lemma EveryTokenEnds(js: seq<Byte>, max: nat)
    ensures var o := Tokenize(js, max, START);
      o.Tokens? ==> forall i :: 0 <= i < |o.toks| ==> 0 <= o.toks[i].start <= o.toks[i].end <= |js|
  {
    EveryText(js, max, START);
    EveryTokenWithin(js, max, START);
    hide Tokenize;
  }
}
