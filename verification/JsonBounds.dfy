// Which tokens the builders of src/c/data-json.c read, and when they stay inside the token array and inside the
// buffers of the strings.
module JsonBounds {
  import opened Bytes
  import opened Options
  import opened Sequences
  import opened CLibrary
  import opened DataOrder
  import opened OrderedEntries
  import opened JsonTokens
  import opened JsonText
  import opened JsonEscapes
  import opened JsonReading
  import opened JsonBuilder

  // ---------------------------------------------------------------- one pass over the tokens

  /** What a token is read as. */
  datatype Role = AsKey | AsValue

  function Values(n: nat): seq<Role> {
    if n == 0 then [] else [AsValue] + Values(n - 1)
  }

  function Pairs(n: nat): seq<Role> {
    if n == 0 then [] else [AsKey, AsValue] + Pairs(n - 1)
  }

  /** What is read below a value. */
  function Asked(t: Token): seq<Role> {
    match t.kind
    case Object => Pairs(t.size)
    case Arr => Values(t.size)
    case _ => []
  }

  /** Reads one token after the other, with a list of what is still wanted: behind the last token read, or none if the
      array ends before that. Only kinds and sizes matter. */
  function Stop(toks: seq<Token>, k: nat, wanted: seq<Role>): (stop: Option<nat>)
    ensures stop.Some? ==> stop.value >= k && (k <= |toks| ==> stop.value <= |toks|)
    decreases |toks| - k
  {
    if wanted == [] then Some(k)
    else if k >= |toks| then None
    else Stop(toks, k + 1, (if wanted[0] == AsValue then Asked(toks[k]) else []) + wanted[1..])
  }

  /** The strings of the tokens from i on and before j stay in their buffers. */
  ghost predicate Inside(lib: Library, toks: seq<Token>, js: seq<Byte>, i: nat, j: nat) {
    forall k :: i <= k < j && k < |toks| && toks[k].kind == Escaped ==> Above(lib, TokenText(js, toks[k]), 0)
  }

  lemma InsideParts(lib: Library, toks: seq<Token>, js: seq<Byte>, i: nat, j: nat, l: nat)
    requires i <= j <= l
    ensures Inside(lib, toks, js, i, l) <==> Inside(lib, toks, js, i, j) && Inside(lib, toks, js, j, l)
  {
    hide Above, TokenText;
  }

  lemma InsideOne(lib: Library, toks: seq<Token>, js: seq<Byte>, k: nat)
    requires k < |toks|
    ensures Inside(lib, toks, js, k, k + 1) <==> StringOf(lib, js, toks[k]).Some?
  {
    StaysInside(lib, TokenText(js, toks[k]));
    hide Above, TokenText, Unescape;
  }

  /** The reads from k on for what is wanted succeed. */
  ghost predicate Readable(lib: Library, toks: seq<Token>, k: nat, js: seq<Byte>, wanted: seq<Role>) {
    var stop := Stop(toks, k, wanted);
    stop.Some? && Inside(lib, toks, js, k, stop.value)
  }

  /** Readable, one token at a time. */
  lemma ReadableNext(lib: Library, toks: seq<Token>, k: nat, js: seq<Byte>, wanted: seq<Role>)
    requires wanted != [] && k < |toks|
    ensures Readable(lib, toks, k, js, wanted) <==>
      StringOf(lib, js, toks[k]).Some? && Readable(lib, toks, k + 1, js, (if wanted[0] == AsValue then Asked(toks[k]) else []) + wanted[1..])
  {
    hide Inside, Asked, StringOf;
    var stop := Stop(toks, k, wanted);
    if stop.Some? { InsideParts(lib, toks, js, k, k + 1, stop.value); }
    InsideOne(lib, toks, js, k);
  }

  lemma ReadableEnds(lib: Library, toks: seq<Token>, k: nat, js: seq<Byte>, wanted: seq<Role>)
    requires wanted == [] || k >= |toks|
    ensures Readable(lib, toks, k, js, wanted) <==> wanted == []
  {
  }

  // ---------------------------------------------------------------- the builders read just that

  /** Reading a value, then what else is wanted. */
  lemma {:induction false} ValueReads(lib: Library, toks: seq<Token>, k: nat, js: seq<Byte>, rest: seq<Role>)
    ensures var v := Value(lib, toks, k, js);
      && (Readable(lib, toks, k, js, [AsValue] + rest) <==> v.Some? && Readable(lib, toks, v.value.next, js, rest))
      && (v.Some? ==> Stop(toks, k, [AsValue] + rest) == Stop(toks, v.value.next, rest))
    decreases |toks| - k, 0
  {
    hide *;
    FirstRole(AsValue, rest);
    if k >= |toks| {
      ReadableEnds(lib, toks, k, js, [AsValue] + rest);
      NoValue(lib, toks, k, js);
    } else {
      ReadableNext(lib, toks, k, js, [AsValue] + rest);
      StopNext(toks, k, [AsValue] + rest);
      AskedIs(toks[k]);
      if toks[k].kind == Object {
        ObjectIs(lib, toks, k, js);
        MembersRead(lib, toks, k + 1, toks[k].size, js, [], rest);
      } else if toks[k].kind == Arr {
        ArrayIs(lib, toks, k, js);
        ItemsRead(lib, toks, k + 1, toks[k].size, js, rest);
      } else {
        LeafIs(lib, toks, k, js);
        NoPrefix(rest);
      }
    }
  }

  lemma {:induction false} MembersRead(lib: Library, toks: seq<Token>, k: nat, n: nat, js: seq<Byte>, es: seq<Entry>, rest: seq<Role>)
    ensures var m := MembersFrom(lib, toks, k, n, js, es);
      && (Readable(lib, toks, k, js, Pairs(n) + rest) <==> m.Some? && Readable(lib, toks, m.value.next, js, rest))
      && (m.Some? ==> Stop(toks, k, Pairs(n) + rest) == Stop(toks, m.value.next, rest))
    decreases |toks| - k, n + 1
  {
    hide *;
    PairsIs(n, rest);
    MembersIs(lib, toks, k, n, js, es);
    if n == 0 {
      NoPrefix(rest);
    } else {
      var more := Pairs(n - 1) + rest;
      FirstRole(AsKey, [AsValue] + more);
      if k >= |toks| {
        ReadableEnds(lib, toks, k, js, Pairs(n) + rest);
      } else {
        ReadableNext(lib, toks, k, js, Pairs(n) + rest);
        StopNext(toks, k, Pairs(n) + rest);
        NoPrefix([AsValue] + more);
        ValueReads(lib, toks, k + 1, js, more);
        var str, v := StringOf(lib, js, toks[k]), Value(lib, toks, k + 1, js);
        if str.Some? && v.Some? {
          NextIsBehind(lib, toks, k + 1, js);
          MembersRead(lib, toks, v.value.next, n - 1, js, if v.value.data == Missing then es else Put(es, Str(str.value), v.value.data), rest);
        }
      }
    }
  }

  lemma {:induction false} ItemsRead(lib: Library, toks: seq<Token>, k: nat, n: nat, js: seq<Byte>, rest: seq<Role>)
    ensures var i := ItemsFrom(lib, toks, k, n, js);
      && (Readable(lib, toks, k, js, Values(n) + rest) <==> i.Some? && Readable(lib, toks, i.value.next, js, rest))
      && (i.Some? ==> Stop(toks, k, Values(n) + rest) == Stop(toks, i.value.next, rest))
    decreases |toks| - k, n + 1
  {
    hide *;
    ValuesIs(n, rest);
    ItemsIs(lib, toks, k, n, js);
    if n == 0 {
      NoPrefix(rest);
    } else {
      ValueReads(lib, toks, k, js, Values(n - 1) + rest);
      var v := Value(lib, toks, k, js);
      if v.Some? {
        NextIsBehind(lib, toks, k, js);
        ItemsRead(lib, toks, v.value.next, n - 1, js, rest);
      }
    }
  }

  lemma FirstRole(role: Role, rest: seq<Role>)
    ensures [role] + rest != [] && ([role] + rest)[0] == role && ([role] + rest)[1..] == rest
  {
  }

  lemma StopNext(toks: seq<Token>, k: nat, wanted: seq<Role>)
    requires wanted != [] && k < |toks|
    ensures Stop(toks, k, wanted) == Stop(toks, k + 1, (if wanted[0] == AsValue then Asked(toks[k]) else []) + wanted[1..])
  {
  }

  lemma AskedIs(t: Token)
    ensures Asked(t) == if t.kind == Object then Pairs(t.size) else if t.kind == Arr then Values(t.size) else []
  {
  }

  lemma PairsIs(n: nat, rest: seq<Role>)
    ensures n == 0 ==> Pairs(n) == []
    ensures n > 0 ==> Pairs(n) + rest == [AsKey] + ([AsValue] + (Pairs(n - 1) + rest))
  {
  }

  lemma ValuesIs(n: nat, rest: seq<Role>)
    ensures n == 0 ==> Values(n) == []
    ensures n > 0 ==> Values(n) + rest == [AsValue] + (Values(n - 1) + rest)
  {
  }

  lemma NoValue(lib: Library, toks: seq<Token>, k: nat, js: seq<Byte>)
    requires k >= |toks|
    ensures Value(lib, toks, k, js) == None
  {
  }

  lemma NextIsBehind(lib: Library, toks: seq<Token>, k: nat, js: seq<Byte>)
    ensures Value(lib, toks, k, js).Some? ==> k < |toks| && k < Value(lib, toks, k, js).value.next
  {
    hide StringOf, PrimitiveOf, MembersFrom, ItemsFrom;
  }

  lemma ObjectIs(lib: Library, toks: seq<Token>, k: nat, js: seq<Byte>)
    requires k < |toks| && toks[k].kind == Object
    ensures var m := MembersFrom(lib, toks, k + 1, toks[k].size, js, []);
      Value(lib, toks, k, js) == if m.Some? then Some(Built(Map(m.value.entries), m.value.next)) else None
    ensures StringOf(lib, js, toks[k]).Some?
  {
    hide MembersFrom, TokenText, UpToNul;
  }

  lemma ArrayIs(lib: Library, toks: seq<Token>, k: nat, js: seq<Byte>)
    requires k < |toks| && toks[k].kind == Arr
    ensures var i := ItemsFrom(lib, toks, k + 1, toks[k].size, js);
      && (Value(lib, toks, k, js).Some? <==> i.Some?)
      && (i.Some? ==> Value(lib, toks, k, js).value.next == i.value.next)
    ensures StringOf(lib, js, toks[k]).Some?
  {
    hide ItemsFrom, Unset, TokenText, UpToNul;
  }

  lemma LeafIs(lib: Library, toks: seq<Token>, k: nat, js: seq<Byte>)
    requires k < |toks| && toks[k].kind != Object && toks[k].kind != Arr
    ensures Value(lib, toks, k, js).Some? <==> StringOf(lib, js, toks[k]).Some?
    ensures Value(lib, toks, k, js).Some? ==> Value(lib, toks, k, js).value.next == k + 1
  {
    hide StringOf, PrimitiveOf;
  }

  lemma MembersIs(lib: Library, toks: seq<Token>, k: nat, n: nat, js: seq<Byte>, es: seq<Entry>)
    ensures n == 0 ==> MembersFrom(lib, toks, k, n, js, es) == Some(BuiltMembers(es, k))
    ensures n > 0 && k >= |toks| ==> MembersFrom(lib, toks, k, n, js, es) == None
    ensures n > 0 && k < |toks| ==>
      var str, v := StringOf(lib, js, toks[k]), Value(lib, toks, k + 1, js);
      MembersFrom(lib, toks, k, n, js, es) ==
        if str == None || v == None then None
        else MembersFrom(lib, toks, v.value.next, n - 1, js, if v.value.data == Missing then es else Put(es, Str(str.value), v.value.data))
  {
    hide StringOf, Value, Put;
  }

  lemma ItemsIs(lib: Library, toks: seq<Token>, k: nat, n: nat, js: seq<Byte>)
    ensures n == 0 ==> ItemsFrom(lib, toks, k, n, js) == Some(BuiltItems([], k))
    ensures n > 0 ==>
      var v := Value(lib, toks, k, js);
      if v == None then ItemsFrom(lib, toks, k, n, js) == None
      else
        var others := ItemsFrom(lib, toks, v.value.next, n - 1, js);
        && (ItemsFrom(lib, toks, k, n, js).Some? <==> others.Some?)
        && (others.Some? ==> ItemsFrom(lib, toks, k, n, js).value.next == others.value.next)
  {
    hide Value;
  }

  /** A value is built if and only if the tokens wanted are all there and the strings among them stay in their buffers; then
      it ends where the wanted tokens end. */
  lemma BuiltIffReadable(lib: Library, toks: seq<Token>, k: nat, js: seq<Byte>)
    ensures Value(lib, toks, k, js).Some? <==> Readable(lib, toks, k, js, [AsValue])
    ensures Value(lib, toks, k, js).Some? ==> Stop(toks, k, [AsValue]) == Some(Value(lib, toks, k, js).value.next)
  {
    hide *;
    ValueReads(lib, toks, k, js, []);
    NoSuffix([AsValue]);
    if Value(lib, toks, k, js).Some? {
      var next := Value(lib, toks, k, js).value.next;
      ReadableEnds(lib, toks, next, js, []);
      StopHere(toks, next);
    }
  }

  lemma StopHere(toks: seq<Token>, k: nat)
    ensures Stop(toks, k, []) == Some(k)
  {
  }

  // ---------------------------------------------------------------- how many tokens are wanted

  /** Everything the tokens from k on can ask for. */
  function Wants(toks: seq<Token>, k: nat): nat
    decreases |toks| - k
  {
    if k >= |toks| then 0 else |Asked(toks[k])| + Wants(toks, k + 1)
  }

  /** No read runs out of tokens if there are as many as are ever asked for. */
  lemma {:induction false} Enough(toks: seq<Token>, k: nat, wanted: seq<Role>)
    requires k <= |toks| && |wanted| + Wants(toks, k) <= |toks| - k
    ensures Stop(toks, k, wanted).Some?
    decreases |toks| - k
  {
    if wanted != [] {
      Enough(toks, k + 1, (if wanted[0] == AsValue then Asked(toks[k]) else []) + wanted[1..]);
    }
  }

  /** The sizes of the first n tokens of these kinds. */
  function Sizes(toks: seq<Token>, kinds: set<Kind>, n: nat): nat
    requires n <= |toks|
  {
    if n == 0 then 0 else Sizes(toks, kinds, n - 1) + if toks[n - 1].kind in kinds then toks[n - 1].size else 0
  }

  /** How many of the first m tokens hang below one of the first n tokens of these kinds. */
  function Below(toks: seq<Token>, kinds: set<Kind>, n: nat, m: nat): nat
    requires n <= |toks| && m <= |toks|
  {
    if n == 0 then 0 else Below(toks, kinds, n - 1, m) + if toks[n - 1].kind in kinds then Children(toks[..m], n - 1) else 0
  }

  predicate HangsBelow(toks: seq<Token>, kinds: set<Kind>, n: nat, j: nat)
    requires n <= |toks| && j < |toks|
  {
    0 <= toks[j].parent < n && toks[toks[j].parent].kind in kinds
  }

  lemma ChildrenGrow(toks: seq<Token>, m: nat, i: int)
    requires m < |toks|
    ensures Children(toks[..m + 1], i) == Children(toks[..m], i) + if toks[m].parent == i then 1 else 0
  {
    assert toks[..m + 1] == toks[..m] + [toks[m]];
    ChildrenNext(toks[..m], toks[m], i);
  }

  lemma {:induction false} BelowGrows(toks: seq<Token>, kinds: set<Kind>, n: nat, m: nat)
    requires n <= |toks| && m < |toks|
    ensures Below(toks, kinds, n, m + 1) == Below(toks, kinds, n, m) + if HangsBelow(toks, kinds, n, m) then 1 else 0
  {
    if n > 0 {
      BelowGrows(toks, kinds, n - 1, m);
      ChildrenGrow(toks, m, n - 1);
      hide Children;
    }
  }

  lemma {:induction false} NothingBelow(toks: seq<Token>, kinds: set<Kind>, n: nat)
    requires n <= |toks|
    ensures Below(toks, kinds, n, 0) == 0
  {
    if n > 0 { NothingBelow(toks, kinds, n - 1); }
  }

  /** The sizes add up to the number of tokens that hang below. */
  lemma {:induction false} SizesAreBelow(toks: seq<Token>, kinds: set<Kind>, n: nat)
    requires Family(toks) && n <= |toks|
    ensures Sizes(toks, kinds, n) == Below(toks, kinds, n, |toks|)
  {
    assert toks[..|toks|] == toks;
    if n > 0 { SizesAreBelow(toks, kinds, n - 1); }
  }

  /** Every member of an object is a string or a primitive with a value below it. */
  ghost predicate KeysHaveValues(toks: seq<Token>) {
    forall j :: 0 <= j < |toks| && 0 <= toks[j].parent < |toks| && toks[toks[j].parent].kind == Object ==>
      toks[j].kind in LEAVES && toks[j].size > 0
  }

  const LEAVES: set<Kind> := {Undefined, Kind.Plain, Escaped, Primitive}

  const ALL: set<Kind> := {Object, Arr} + LEAVES

  /** Then the tokens below objects are no more than the sizes of leaves. */
  lemma {:induction false} MembersCarry(toks: seq<Token>, m: nat)
    requires KeysHaveValues(toks) && m <= |toks|
    ensures Below(toks, {Object}, |toks|, m) <= Sizes(toks, LEAVES, m)
  {
    if m == 0 {
      NothingBelow(toks, {Object}, |toks|);
    } else {
      MembersCarry(toks, m - 1);
      BelowGrows(toks, {Object}, |toks|, m - 1);
    }
  }

  lemma {:induction false} RootIsFree(toks: seq<Token>, m: nat)
    requires ParentsBefore(toks) && 0 < m <= |toks|
    ensures Below(toks, ALL, |toks|, m) <= m - 1
  {
    BelowGrows(toks, ALL, |toks|, m - 1);
    if m == 1 { NothingBelow(toks, ALL, |toks|); } else { RootIsFree(toks, m - 1); }
  }

  lemma {:induction false} SizesSplit(toks: seq<Token>, n: nat)
    requires n <= |toks|
    ensures Sizes(toks, ALL, n) == Sizes(toks, {Object}, n) + Sizes(toks, {Arr}, n) + Sizes(toks, LEAVES, n)
  {
    if n > 0 { SizesSplit(toks, n - 1); }
  }

  lemma {:induction false} AskedLength(n: nat)
    ensures |Pairs(n)| == 2 * n && |Values(n)| == n
  {
    if n > 0 { AskedLength(n - 1); }
  }

  lemma {:induction false} WantsSplit(toks: seq<Token>, n: nat)
    requires n <= |toks|
    ensures Wants(toks, 0) == 2 * Sizes(toks, {Object}, n) + Sizes(toks, {Arr}, n) + Wants(toks, n)
  {
    if n > 0 {
      WantsSplit(toks, n - 1);
      AskedLength(toks[n - 1].size);
    }
  }

  /** Of any text that the tokenizer accepts: if every member of an object has its value, nothing behind the tokens made is
      ever read. */
  lemma NothingMissing(toks: seq<Token>)
    requires toks != [] && Family(toks) && ParentsBefore(toks) && KeysHaveValues(toks)
    ensures Stop(toks, 0, [AsValue]).Some?
  {
    hide *;
    var n := |toks|;
    SizesAreBelow(toks, {Object}, n);
    SizesAreBelow(toks, ALL, n);
    MembersCarry(toks, n);
    RootIsFree(toks, n);
    SizesSplit(toks, n);
    WantsSplit(toks, n);
    WantsEnd(toks);
    Enough(toks, 0, [AsValue]);
  }

  lemma WantsEnd(toks: seq<Token>)
    ensures Wants(toks, |toks|) == 0
  {
  }

  // ---------------------------------------------------------------- texts

  /** What is read of the tokens made is read of the whole array. */
  lemma {:induction false} StopExtends(toks: seq<Token>, more: seq<Token>, k: nat, wanted: seq<Role>)
    requires Stop(toks, k, wanted).Some? && k <= |toks|
    ensures Stop(toks + more, k, wanted) == Stop(toks, k, wanted)
    decreases |toks| - k
  {
    if wanted != [] {
      assert (toks + more)[k] == toks[k];
      StopExtends(toks, more, k + 1, (if wanted[0] == AsValue then Asked(toks[k]) else []) + wanted[1..]);
    }
  }

  lemma InsideExtends(lib: Library, toks: seq<Token>, more: seq<Token>, js: seq<Byte>, i: nat, j: nat)
    requires j <= |toks|
    ensures Inside(lib, toks + more, js, i, j) <==> Inside(lib, toks, js, i, j)
  {
    hide Above, TokenText;
    assert forall k :: 0 <= k < |toks| ==> (toks + more)[k] == toks[k];
  }

  /** The tokens of a text, if there are any. */
  function TokensOfText(js: seq<Byte>): seq<Token> {
    match Tokenize(js, Estimate(js), START)
    case Error(_) => []
    case Tokens(toks, _) => toks
  }

  /** Reading a text accesses only memory that was allocated if and only if the tokens wanted are all in the array and the
      strings among them stay in their buffers. */
  lemma DefinedIff(lib: Library, js: seq<Byte>)
    ensures FromJson(lib, js).Some? <==>
      TokensOfText(js) == [] || Readable(lib, Allocated(TokensOfText(js), Estimate(js)), 0, js, [AsValue])
  {
    hide Tokenize, Estimate, Value, Allocated, Readable;
    EveryText(js, Estimate(js), START);
    BuiltIffReadable(lib, Allocated(TokensOfText(js), Estimate(js)), 0, js);
    EmptyText(js);
  }

  lemma EmptyText(js: seq<Byte>)
    ensures js == [] ==> TokensOfText(js) == []
  {
  }

  /** A text whose objects have all their values is read from the tokens made for it alone, and is defined if its strings
      stay in their buffers. */
  lemma CompleteTexts(lib: Library, js: seq<Byte>)
    requires KeysHaveValues(TokensOfText(js))
    ensures TokensOfText(js) != [] ==> Stop(TokensOfText(js), 0, [AsValue]).Some?
    ensures Inside(lib, TokensOfText(js), js, 0, |TokensOfText(js)|) ==> FromJson(lib, js).Some?
  {
    hide *;
    var toks, max := TokensOfText(js), Estimate(js);
    DefinedIff(lib, js);
    if toks != [] {
      FamilyOfText(js);
      NothingMissing(toks);
      var stop := Stop(toks, 0, [AsValue]).value;
      var more := Zeros(if |toks| <= max then max - |toks| else 0);
      StopExtends(toks, more, 0, [AsValue]);
      InsideParts(lib, toks, js, 0, stop, |toks|);
      InsideExtends(lib, toks, more, js, 0, stop);
      AllocatedIs(lib, toks, max, js, stop);
    }
  }

  lemma FamilyOfText(js: seq<Byte>)
    ensures Family(TokensOfText(js)) && ParentsBefore(TokensOfText(js))
  {
    hide Tokenize, Children, Estimate;
    EveryText(js, Estimate(js), START);
  }

  lemma AllocatedIs(lib: Library, toks: seq<Token>, max: nat, js: seq<Byte>, stop: nat)
    ensures var more := Zeros(if |toks| <= max then max - |toks| else 0);
      Stop(toks + more, 0, [AsValue]) == Some(stop) && Inside(lib, toks + more, js, 0, stop) ==>
        Readable(lib, Allocated(toks, max), 0, js, [AsValue])
  {
    hide Stop, Inside;
  }

  // ---------------------------------------------------------------- objects with a member that has no value

  const LONE_KEY: seq<Byte> := [Ch('{'), QUOTE, Ch('a'), QUOTE, Ch('}')]

  const LONE_KEY_COMMA: seq<Byte> := [Ch('{'), QUOTE, Ch('a'), QUOTE, COMMA, Ch('}')]

  /** The tokens of an object with one member, a string. */
  function LoneTokens(end: int): seq<Token> {
    [Token(Object, 0, end, 1, -1), Token(Kind.Plain, 2, 3, 0, 0)]
  }

  lemma LoneStart(js: seq<Byte>, max: nat)
    requires |js| >= 5 && js[..4] == LONE_KEY[..4] && max >= 2
    ensures Tokenize(js, max, START) == Tokenize(js, max, Parser(4, LoneTokens(-1), 0, 2))
  {
    assert js[0] == LONE_KEY[..4][0] && js[1] == LONE_KEY[..4][1] && js[2] == LONE_KEY[..4][2] && js[3] == LONE_KEY[..4][3];
    var p := Parser(1, [Token(Object, 0, -1, 0, -1)], 0, 1);
    assert Step(js, max, START) == Ok(p);
    assert StringEnd(js, 2, false) == Found(3, false);
    assert Step(js, max, p) == Ok(Parser(4, LoneTokens(-1), 0, 2));
  }

  lemma LoneClose(js: seq<Byte>, max: nat, pos: nat)
    requires pos + 1 == |js| && js[pos] == Ch('}')
    ensures Tokenize(js, max, Parser(pos, LoneTokens(-1), 0, 2)) == Tokens(LoneTokens(pos + 1), 2)
  {
    var p := Parser(pos, LoneTokens(-1), 0, 2);
    var q := Parser(pos + 1, LoneTokens(pos + 1), -1, 2);
    assert Close(p, 0, Object) == Ok(q.(pos := pos));
    assert Close(p, 1, Object) == Ok(q.(pos := pos));
    assert Step(js, max, p) == Ok(q);
    assert !SomeOpen(q.toks);
  }

  lemma LoneComma(js: seq<Byte>, max: nat)
    requires |js| == 6 && js[4] == COMMA
    ensures Tokenize(js, max, Parser(4, LoneTokens(-1), 0, 2)) == Tokenize(js, max, Parser(5, LoneTokens(-1), 0, 2))
  {
    assert Step(js, max, Parser(4, LoneTokens(-1), 0, 2)) == Ok(Parser(5, LoneTokens(-1), 0, 2));
  }

  lemma LoneEstimates()
    ensures Estimate(LONE_KEY) == 2 && Estimate(LONE_KEY_COMMA) == 3
  {
    var js, jc := LONE_KEY, LONE_KEY_COMMA;
    assert js[1..] == [QUOTE, Ch('a'), QUOTE, Ch('}')] && jc[1..] == [QUOTE, Ch('a'), QUOTE, COMMA, Ch('}')];
    QuietWeights(js[1..]);
    WeightsConcat([QUOTE, Ch('a'), QUOTE], [COMMA] + [Ch('}')]);
    QuietWeights([QUOTE, Ch('a'), QUOTE]);
    WeightsConcat([COMMA], [Ch('}')]);
    WeightOf(COMMA);
    WeightOf(Ch('}'));
    assert jc[1..] == [QUOTE, Ch('a'), QUOTE] + ([COMMA] + [Ch('}')]);
  }

  lemma {:induction false} QuietWeights(text: seq<Byte>)
    requires forall i :: 0 <= i < |text| ==> Weight(text[i]) == 0
    ensures Weights(text) == 0
  {
    if text != [] { QuietWeights(text[1..]); }
  }

  /** Two tokens are made and two allocated, and the value of the key is read from behind them. */
  lemma LoneKeyLeaves(lib: Library)
    ensures FromJson(lib, LONE_KEY) == None
  {
    hide Tokenize, Estimate, Value, Weights, Readable;
    LoneEstimates();
    LoneStart(LONE_KEY, 2);
    LoneClose(LONE_KEY, 2, 4);
    DefinedIff(lib, LONE_KEY);
    NoSuffix(LoneTokens(5));
    assert Allocated(LoneTokens(5), 2) == LoneTokens(5);
    LoneStops(lib, LONE_KEY);
  }

  lemma LoneStops(lib: Library, js: seq<Byte>)
    ensures !Readable(lib, LoneTokens(5), 0, js, [AsValue])
  {
    var toks := LoneTokens(5);
    assert Asked(toks[0]) == [AsKey, AsValue];
    assert Stop(toks, 2, [AsValue]) == None;
    assert Stop(toks, 1, [AsKey, AsValue]) == None;
    NoSuffix([AsKey, AsValue]);
  }

  /** With a comma the array has a third token, which calloc has zeroed and which is read as an empty string. */
  lemma LoneKeyWithComma(lib: Library)
    ensures FromJson(lib, LONE_KEY_COMMA) == Some(Map([Entry(Str([Ch('a')]), Str([]))]))
  {
    hide Tokenize, Estimate, Value, Weights;
    LoneEstimates();
    LoneStart(LONE_KEY_COMMA, 3);
    LoneComma(LONE_KEY_COMMA, 3);
    LoneClose(LONE_KEY_COMMA, 3, 5);
    assert Allocated(LoneTokens(6), 3) == LoneTokens(6) + [ZERO];
    LoneValue(lib, LONE_KEY_COMMA);
  }

  lemma LoneValue(lib: Library, js: seq<Byte>)
    requires js == LONE_KEY_COMMA
    ensures Value(lib, LoneTokens(6) + [ZERO], 0, js) == Some(Built(Map([Entry(Str([Ch('a')]), Str([]))]), 3))
  {
    hide PrimitiveOf;
    var toks := LoneTokens(6) + [ZERO];
    assert TokenText(js, toks[1]) == [Ch('a')] && TokenText(js, ZERO) == [];
    NulFree([Ch('a')]);
    assert StringOf(lib, js, toks[1]) == Some([Ch('a')]);
    assert Value(lib, toks, 2, js) == Some(Built(Str([]), 3));
    assert Put([], Str([Ch('a')]), Str([])) == [Entry(Str([Ch('a')]), Str([]))];
    assert MembersFrom(lib, toks, 3, 0, js, [Entry(Str([Ch('a')]), Str([]))]) == Some(BuiltMembers([Entry(Str([Ch('a')]), Str([]))], 3));
    assert MembersFrom(lib, toks, 1, 1, js, []) == Some(BuiltMembers([Entry(Str([Ch('a')]), Str([]))], 3));
  }
}
