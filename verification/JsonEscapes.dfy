// How a string token with escapes is read (src/c/data-json.c): the inverse of the printer's escapes, and when
// the write pointer stays in its buffer.
module JsonEscapes {
  import opened Bytes
  import opened Options
  import opened Sequences
  import opened CLibrary
  import opened JsonTokens
  import opened JsonText

  function HexValue(c: Byte): nat {
    if 48 <= c <= 57 then c - 48 else if 65 <= c <= 70 then c - 55 else if 97 <= c <= 102 then c - 87 else 0
  }

  function FourHex(a: Byte, b: Byte, c: Byte, d: Byte): (n: nat)
    ensures n < 0x1_0000
  {
    HexValue(a) * 4096 + HexValue(b) * 256 + HexValue(c) * 16 + HexValue(d)
  }

  /** How much of the text one round of the loop takes, and what it writes; none if c32rtomb fails. */
  datatype Round = Round(taken: nat, written: Option<seq<Byte>>)

  /** The body of the loop of iot_data_string_from_json_token. */
  function RoundOf(lib: Library, t: seq<Byte>): (r: Round)
    requires t != []
    ensures 0 < r.taken <= |t|
    ensures r.written.Some? ==> |r.written.value| <= r.taken
  {
    if t[0] != BACKSLASH then Round(1, Some([t[0]]))
    else if |t| < 2 then Round(1, Some([QUOTE]))  // what follows is the closing quote
    else if t[1] == Ch('b') then Round(2, Some([8]))
    else if t[1] == Ch('f') then Round(2, Some([12]))
    else if t[1] == Ch('r') then Round(2, Some([13]))
    else if t[1] == Ch('n') then Round(2, Some([10]))
    else if t[1] == Ch('t') then Round(2, Some([9]))
    else if t[1] == Ch('u') then
      if |t| < 6 then Round(2, Some([])) else Round(6, lib.c32rtomb(FourHex(t[2], t[3], t[4], t[5])))
    else Round(2, Some([t[1]]))
  }

  /** The bytes written so far, with `out` written from position dst on. */
  function Overlay(buf: seq<Byte>, dst: nat, out: seq<Byte>): seq<Byte>
    requires dst <= |buf|
  {
    buf[..dst] + out + (if dst + |out| <= |buf| then buf[dst + |out|..] else [])
  }

  /** The loop on what is left of the text: what the buffer holds in the end. After a failed conversion the pointer
      moves back by one byte; none if it moves out of the buffer. */
  function Rewrite(lib: Library, t: seq<Byte>, buf: seq<Byte>, dst: nat): Option<seq<Byte>>
    requires dst <= |buf|
    decreases |t|
  {
    if t == [] then Some(buf)
    else
      var r := RoundOf(lib, t);
      match r.written
      case None => if dst == 0 then None else Rewrite(lib, t[r.taken..], buf, dst - 1)
      case Some(out) => Rewrite(lib, t[r.taken..], Overlay(buf, dst, out), dst + |out|)
  }

  function Unescape(lib: Library, t: seq<Byte>): Option<seq<Byte>> {
    Rewrite(lib, t, [], 0)
  }

  lemma AtTheEnd(buf: seq<Byte>, out: seq<Byte>)
    ensures Overlay(buf, |buf|, out) == buf + out
  {
  }

  lemma RoundOfEscaped(lib: Library, c: Byte, rest: seq<Byte>)
    requires c != NUL
    ensures RoundOf(lib, EscapeChar(c) + rest) == Round(|EscapeChar(c)|, Some([c]))
    ensures (EscapeChar(c) + rest)[|EscapeChar(c)|..] == rest
  {
    if ReprSize(c) == 6 {
      assert FourHex(48, 48, if c >= 16 then 49 else 48, HexChar(c % 16)) == c;
    }
  }

  lemma {:induction false} EscapesRewritten(lib: Library, s: seq<Byte>, buf: seq<Byte>)
    requires NUL !in s
    ensures Rewrite(lib, Escape(s), buf, |buf|) == Some(buf + s)
    decreases |s|
  {
    hide RoundOf, EscapeChar, Overlay;
    if s == [] {
      NoSuffix(buf);
    } else {
      RoundOfEscaped(lib, s[0], Escape(s[1..]));
      AtTheEnd(buf, [s[0]]);
      EscapesRewritten(lib, s[1..], buf + [s[0]]);
      Assoc(buf, [s[0]], s[1..]);
      assert [s[0]] + s[1..] == s;
    }
  }

  /** Unescaping undoes escaping, whatever the string and the locale. */
  lemma EscapesUndone(lib: Library, s: seq<Byte>)
    requires NUL !in s
    ensures Unescape(lib, Escape(s)) == Some(s)
  {
    EscapesRewritten(lib, s, []);
    NoPrefix(s);
  }

  // ---------------------------------------------------------------- when the pointer leaves the buffer

  /** Bytes written in the first n rounds, less one for each conversion that failed. */
  function Gain(lib: Library, t: seq<Byte>, n: nat): int
    decreases n
  {
    if n == 0 || t == [] then 0
    else
      var r := RoundOf(lib, t);
      (if r.written.Some? then |r.written.value| else -1) + Gain(lib, t[r.taken..], n - 1)
  }

  /** Starting at position dst, the pointer never gets below the buffer. */
  ghost predicate Above(lib: Library, t: seq<Byte>, dst: int) {
    forall n: nat :: dst + Gain(lib, t, n) >= 0
  }

  /** The pointer stays in the buffer if and only if at no point of the text more conversions have failed than bytes have
      been written. */
  lemma StaysInside(lib: Library, t: seq<Byte>)
    ensures Unescape(lib, t).Some? <==> Above(lib, t, 0)
  {
    StaysFrom(lib, t, [], 0);
  }

  lemma {:induction false} StaysFrom(lib: Library, t: seq<Byte>, buf: seq<Byte>, dst: nat)
    requires dst <= |buf|
    ensures Rewrite(lib, t, buf, dst).Some? <==> Above(lib, t, dst)
    decreases |t|
  {
    hide RoundOf, Overlay, Gain, Above;
    if t == [] {
      NothingGained(lib, t, dst);
    } else {
      var r := RoundOf(lib, t);
      var rest := t[r.taken..];
      AboveNext(lib, t, dst);
      match r.written {
        case None => if dst > 0 { StaysFrom(lib, rest, buf, dst - 1); }
        case Some(out) =>
          OverlayHolds(buf, dst, out);
          StaysFrom(lib, rest, Overlay(buf, dst, out), dst + |out|);
      }
    }
  }

  lemma NothingGained(lib: Library, t: seq<Byte>, dst: nat)
    requires t == []
    ensures Above(lib, t, dst)
  {
  }

  /** Where one round leaves the pointer. */
  function MovedTo(lib: Library, t: seq<Byte>, dst: nat): int
    requires t != []
  {
    var r := RoundOf(lib, t);
    dst + if r.written.Some? then |r.written.value| else -1
  }

  lemma GainNext(lib: Library, t: seq<Byte>, dst: nat, n: nat)
    requires t != []
    ensures dst + Gain(lib, t, n + 1) == MovedTo(lib, t, dst) + Gain(lib, t[RoundOf(lib, t).taken..], n)
  {
    hide RoundOf;
  }

  lemma AboveNext(lib: Library, t: seq<Byte>, dst: nat)
    requires t != []
    ensures Above(lib, t, dst) <==> MovedTo(lib, t, dst) >= 0 && Above(lib, t[RoundOf(lib, t).taken..], MovedTo(lib, t, dst))
  {
    hide RoundOf, Gain, MovedTo;
    var rest, next := t[RoundOf(lib, t).taken..], MovedTo(lib, t, dst);
    GainZero(lib, t);
    GainZero(lib, rest);
    if Above(lib, t, dst) {
      forall n: nat ensures next + Gain(lib, rest, n) >= 0 { GainNext(lib, t, dst, n); }
      assert next + Gain(lib, rest, 0) >= 0;
    }
    if next >= 0 && Above(lib, rest, next) {
      forall n: nat ensures dst + Gain(lib, t, n) >= 0 {
        if n > 0 { GainNext(lib, t, dst, n - 1); }
      }
    }
  }

  lemma GainZero(lib: Library, t: seq<Byte>)
    ensures Gain(lib, t, 0) == 0
  {
  }

  lemma OverlayHolds(buf: seq<Byte>, dst: nat, out: seq<Byte>)
    requires dst <= |buf|
    ensures dst + |out| <= |Overlay(buf, dst, out)|
  {
  }

  /** If there is a universal escape at place i, it names a character of the locale. */
  predicate ConvertibleAt(lib: Library, t: seq<Byte>, i: nat) {
    i + 6 <= |t| && t[i] == BACKSLASH && t[i + 1] == Ch('u') ==>
      lib.c32rtomb(FourHex(t[i + 2], t[i + 3], t[i + 4], t[i + 5])).Some?
  }

  ghost predicate Convertible(lib: Library, t: seq<Byte>) {
    forall i: nat :: ConvertibleAt(lib, t, i)
  }

  lemma ConvertibleNext(lib: Library, t: seq<Byte>)
    requires Convertible(lib, t) && t != []
    ensures RoundOf(lib, t).written.Some? && Convertible(lib, t[RoundOf(lib, t).taken..])
  {
    assert ConvertibleAt(lib, t, 0);
    ConvertibleFront(lib, t);
    var n := RoundOf(lib, t).taken;
    hide RoundOf, ConvertibleAt;
    forall i: nat ensures ConvertibleAt(lib, t[n..], i) {
      assert ConvertibleAt(lib, t, n + i);
      ConvertibleRest(lib, t, n, i);
    }
  }

  lemma ConvertibleFront(lib: Library, t: seq<Byte>)
    requires ConvertibleAt(lib, t, 0) && t != []
    ensures RoundOf(lib, t).written.Some?
  {
    hide FourHex;
  }

  lemma ConvertibleRest(lib: Library, t: seq<Byte>, n: nat, i: nat)
    requires n <= |t| && ConvertibleAt(lib, t, n + i)
    ensures ConvertibleAt(lib, t[n..], i)
  {
    hide FourHex;
  }

  /** Such a text stays inside. */
  lemma {:induction false} ConvertibleStays(lib: Library, t: seq<Byte>, buf: seq<Byte>, dst: nat)
    requires Convertible(lib, t) && dst <= |buf|
    ensures Rewrite(lib, t, buf, dst).Some?
    decreases |t|
  {
    hide RoundOf, Overlay, Convertible;
    if t != [] {
      ConvertibleNext(lib, t);
      var r := RoundOf(lib, t);
      OverlayHolds(buf, dst, r.written.value);
      ConvertibleStays(lib, t[r.taken..], Overlay(buf, dst, r.written.value), dst + |r.written.value|);
    }
  }

  const SURROGATE: seq<Byte> := [BACKSLASH, Ch('u'), Ch('d'), Ch('8'), Ch('0'), Ch('0')]

  /** A surrogate at the start of a string: c32rtomb fails and the next character is written before the buffer. After
      another character it is that one that is lost. */
  lemma SurrogateLeaves()
    ensures Unescape(UTF8, SURROGATE + [Ch('x')]) == None
    ensures Unescape(UTF8, [Ch('a')] + SURROGATE + [Ch('x')]) == Some([Ch('x')])
  {
    var t := SURROGATE + [Ch('x')];
    var u := [Ch('a')] + SURROGATE + [Ch('x')];
    SurrogateFails();
    assert u[1..] == t;
    AtTheEnd([], [Ch('a')]);
    NoPrefix([Ch('a')]);
    LastCharacter();
    OneLost();
  }

  lemma OneLost()
    ensures Rewrite(UTF8, SURROGATE + [Ch('x')], [Ch('a')], 1) == Some([Ch('x')])
  {
    SurrogateFails();
    LastCharacter();
  }

  /** In a program that sets no locale any character outside ASCII does the same. */
  lemma AccentLeaves()
    ensures Unescape(POSIX, [BACKSLASH, Ch('u'), Ch('0'), Ch('0'), Ch('e'), Ch('9'), Ch('x')]) == None
  {
    assert FourHex(Ch('0'), Ch('0'), Ch('e'), Ch('9')) == 0xE9;
  }

  lemma SurrogateFails()
    ensures RoundOf(UTF8, SURROGATE + [Ch('x')]) == Round(6, None) && (SURROGATE + [Ch('x')])[6..] == [Ch('x')]
  {
    assert FourHex(Ch('d'), Ch('8'), Ch('0'), Ch('0')) == 0xD800;
  }

  lemma LastCharacter()
    ensures Rewrite(UTF8, [Ch('x')], [Ch('a')], 0) == Some([Ch('x')])
  {
    assert Overlay([Ch('a')], 0, [Ch('x')]) == [Ch('x')];
    assert [Ch('x')][1..] == [];
  }
}
