// The growing string of src/c/data.c and the printer of src/c/data-json.c that fills it. Every method
// appends what JsonText says, and every write is within the buffer.
module JsonWriter {
  import opened Bytes
  import opened Sequences
  import opened ArrayElements
  import opened DataOrder
  import opened JsonTokens
  import opened JsonText
  import Base64
  import CborCodec
  import opened JsonRoundTrip

  const DOUBLING_LIMIT: nat := 4096
  const INCREMENT: nat := 1024
  const SCALAR_SIZE: nat := 31

  // ---------------------------------------------------------------- what can be printed

  /** Values without an unset slot or key, strings that are C strings, and integers of their type. */
  ghost predicate Dumpable(d: Data)
    decreases d, 1
  {
    match d
    case Missing => false
    case Int(_, _) => CborCodec.Scalar(d)
    case Str(chars) => NUL !in chars
    case Vector(slots) => DumpableSeq(slots)
    case List(elements) => DumpableSeq(elements)
    case Map(entries) => DumpableEntries(entries)
    case Array(binary, _, _, _, _) => !binary ==> CborCodec.Encodable(d)
    case _ => true
  }

  ghost predicate DumpableSeq(ds: seq<Data>)
    decreases ds, 0
  {
    ds != [] ==> Dumpable(ds[0]) && DumpableSeq(ds[1..])
  }

  ghost predicate DumpableEntries(es: seq<Entry>)
    decreases es, 0
  {
    es != [] ==> DumpableEntry(es[0]) && DumpableEntries(es[1..])
  }

  ghost predicate DumpableEntry(e: Entry)
    decreases e, 1
  {
    Dumpable(e.key) && (e.value != Missing ==> Dumpable(e.value))
  }

  /** Whatever comes back can be printed. */
  lemma {:induction false} PrintableIsDumpable(d: Data)
    requires Printable(d)
    ensures Dumpable(d)
    decreases d, 1
  {
    match d
    case Vector(slots) => SeqIsDumpable(slots);
    case Map(entries) => EntriesAreDumpable(entries);
    case _ =>
  }

  lemma {:induction false} SeqIsDumpable(ds: seq<Data>)
    requires PrintableSeq(ds)
    ensures DumpableSeq(ds)
    decreases ds, 0
  {
    if ds != [] {
      PrintableIsDumpable(ds[0]);
      SeqIsDumpable(ds[1..]);
    }
  }

  lemma {:induction false} EntriesAreDumpable(es: seq<Entry>)
    requires PrintableEntries(es)
    ensures DumpableEntries(es)
    decreases es, 0
  {
    if es != [] {
      EntryIsDumpable(es[0]);
      EntriesAreDumpable(es[1..]);
    }
  }

  lemma {:induction false} EntryIsDumpable(e: Entry)
    requires PrintableEntry(e)
    ensures DumpableEntry(e)
    decreases e, 1
  {
    PrintableIsDumpable(e.value);
  }

  // ---------------------------------------------------------------- lengths

  lemma {:induction false} EscapeLength(s: seq<Byte>)
    ensures |Escape(s)| >= |s|
    ensures |Escape(s)| == |s| ==> Escape(s) == s
  {
    if s != [] {
      EscapeLength(s[1..]);
      assert s == [s[0]] + s[1..];
    }
  }

  lemma EscapeNext(s: seq<Byte>, i: nat)
    requires i < |s|
    ensures Escape(s[i..]) == EscapeChar(s[i]) + Escape(s[i + 1..])
  {
    assert s[i..][1..] == s[i + 1..];
    hide EscapeChar;
  }

  function Pow10(k: nat): nat {
    if k == 0 then 1 else 10 * Pow10(k - 1)
  }

  lemma {:induction false} DigitsLength(n: nat, k: nat)
    requires 0 < k && n < Pow10(k)
    ensures |Digits(n)| <= k
  {
    if n >= 10 { DigitsLength(n / 10, k - 1); }
  }

  lemma ScalarLength(d: Data)
    requires CborCodec.Scalar(d)
    ensures |PrintScalar(d)| < SCALAR_SIZE - 1 && NUL !in PrintScalar(d)
  {
    if d.Int? {
      assert Pow10(5) == 100_000;
      assert Pow10(10) == 10_000_000_000;
      assert Pow10(15) == 1_000_000_000_000_000;
      assert Pow10(20) == 100_000_000_000_000_000_000;
      DigitsLength(if d.value < 0 then -d.value else d.value, 20);
    }
  }

  // ---------------------------------------------------------------- the buffer

  class StringHolder {
    var str: array<Byte>
    var size: nat
    var free: nat

    /** The terminator is in the buffer, `free` bytes before its end. */
    ghost predicate Valid()
      reads this, str
    {
      size == str.Length && free < size && str[size - free - 1] == NUL
    }

    ghost function Contents(): seq<Byte>
      requires Valid()
      reads this, str
    {
      str[..size - free - 1]
    }

    constructor (capacity: nat)
      requires capacity > 0
      ensures Valid() && Contents() == [] && fresh(str) && size == capacity
    {
      str := new Byte[capacity](_ => 0);
      size, free := capacity, capacity - 1;
    }

    /** iot_data_holder_realloc: the buffer doubles up to a limit, then grows by a fixed amount, or by what is
        asked for if that is more. */
    method Realloc(required: nat)
      requires Valid()
      modifies this
      ensures Valid() && Contents() == old(Contents()) && fresh(str) && required <= free
      ensures var inc := if old(size) > DOUBLING_LIMIT then INCREMENT else old(size);
        size == old(size) + if inc < required then required else inc
      ensures size - free == old(size - free)
    {
      var inc := if size > DOUBLING_LIMIT then INCREMENT else size;
      if inc < required { inc := required; }
      var bigger := new Byte[size + inc](_ => 0);
      forall i | 0 <= i < size {
        bigger[i] := str[i];
      }
      str := bigger;
      size := size + inc;
      free := free + inc;
    }

    /** The store of a NUL-free text and its terminator behind the contents. */
    method Store(add: seq<Byte>)
      requires Valid() && |add| <= free
      modifies this`free, str
      ensures Valid() && Contents() == old(Contents()) + add
      ensures size == old(size) && free == old(free) - |add|
    {
      var at := size - free - 1;
      forall i | 0 <= i < |add| {
        str[at + i] := add[i];
      }
      free := free - |add|;
      str[size - free - 1] := NUL;
    }

    /** The length of the escaped text. */
    method EscapedLength(add: seq<Byte>) returns (n: nat)
      ensures n == |Escape(add)|
    {
      n := 0;
      assert add[0..] == add;
      for i := 0 to |add|
        invariant n + |Escape(add[i..])| == |Escape(add)|
      {
        EscapeNext(add, i);
        n := n + ReprSize(add[i]);
      }
    }

    /** The copy of iot_data_strcat_escape, character by character. */
    method StoreEscaped(add: seq<Byte>)
      requires Valid() && |Escape(add)| <= free
      modifies this`free, str
      ensures Valid() && Contents() == old(Contents()) + Escape(add)
      ensures size == old(size)
    {
      hide EscapeChar, Escape;
      ghost var goal := Contents() + Escape(add);
      var room := free;
      assert add[0..] == add;
      for i := 0 to |add|
        invariant Valid() && size == old(size) && str == old(str)
        invariant |Escape(add[i..])| <= free
        invariant Contents() + Escape(add[i..]) == goal
      {
        EscapeNext(add, i);
        ghost var was := Contents();
        Store(EscapeChar(add[i]));
        Assoc(was, EscapeChar(add[i]), Escape(add[i + 1..]));
      }
      NoEscape();
      assert add[|add|..] == [];
      NoSuffix(Contents());
    }

    static lemma NoEscape()
      ensures Escape([]) == []
    {
    }

    /** iot_data_strcat_escape */
    method StrcatEscape(add: seq<Byte>, escape: bool)
      requires Valid() && NUL !in add
      modifies this, str
      ensures Valid() && Contents() == old(Contents()) + if escape then Escape(add) else add
      ensures str == old(str) || fresh(str)
    {
      var length := |add|;
      if escape { length := EscapedLength(add); }
      if free < length { Realloc(length); }
      if |add| == length {
        if escape { EscapeLength(add); }
        Store(add);
      } else {
        StoreEscaped(add);
      }
    }

    /** A bracket, comma, colon or quote. */
    method Mark(c: Byte)
      requires Valid() && c >= 32 && c != BACKSLASH
      modifies this, str
      ensures Valid() && Contents() == old(Contents()) + [c]
      ensures str == old(str) || fresh(str)
    {
      assert c != QUOTE ==> Escape([c]) == EscapeChar(c) + Escape([]);
      StrcatEscape([c], c != QUOTE);
    }

    /** iot_data_dump_json_ptr: a number never needs more than the bytes set aside for it. */
    method DumpScalar(d: Data)
      requires Valid() && CborCodec.Scalar(d)
      modifies this, str
      ensures Valid() && Contents() == old(Contents()) + PrintScalar(d)
      ensures str == old(str) || fresh(str)
    {
      hide PrintScalar;
      if free < SCALAR_SIZE { Realloc(SCALAR_SIZE); }
      ScalarLength(d);
      Store(PrintScalar(d));
    }

    /** iot_data_base64_encode */
    method DumpBinary(bytes: seq<Byte>)
      requires Valid()
      modifies this, str
      ensures Valid() && Contents() == old(Contents()) + if bytes == [] then [] else Base64.Encode(bytes)
      ensures str == old(str) || fresh(str)
    {
      hide Base64.Encode, Base64.EncodeSize;
      if |bytes| > 0 {
        Base64.EncodeLength(bytes);
        var length := Base64.EncodeSize(|bytes|) - 1;
        if free < length { Realloc(length); }
        var data := new Byte[|bytes|](i requires 0 <= i < |bytes| => bytes[i]);
        var out := new Byte[free + 1](_ => 0);
        assert data[..] == bytes;
        var ok := Base64.EncodeInto(data, out);
        Store(out[..length]);
      } else {
        NoSuffix(Contents());
      }
    }

    method DumpScalars(ds: seq<Data>)
      requires Valid() && forall i :: 0 <= i < |ds| ==> CborCodec.Scalar(ds[i])
      modifies this, str
      ensures Valid() && Contents() == old(Contents()) + PrintScalars(ds)
      ensures str == old(str) || fresh(str)
    {
      hide PrintScalar, CborCodec.Scalar;
      assert ds[0..] == ds;
      for i := 0 to |ds|
        invariant Valid() && (str == old(str) || fresh(str))
        invariant Contents() + PrintScalars(ds[i..]) == old(Contents()) + PrintScalars(ds)
      {
        ScalarsNext(ds, i, Contents());
        DumpScalar(ds[i]);
        if i + 1 < |ds| { Mark(COMMA); }
      }
      NoSuffix(Contents());
    }

    static lemma ScalarsNext(ds: seq<Data>, i: nat, was: seq<Byte>)
      requires i < |ds|
      ensures was + PrintScalars(ds[i..]) ==
        was + PrintScalar(ds[i]) + (if i + 1 < |ds| then [COMMA] else []) + PrintScalars(ds[i + 1..])
    {
      hide PrintScalar;
      assert ds[i..][1..] == ds[i + 1..];
    }

    /** iot_data_dump_json */
    method DumpJson(d: Data)
      requires Valid() && Dumpable(d)
      modifies this, str
      ensures Valid() && Contents() == old(Contents()) + Print(d)
      ensures str == old(str) || fresh(str)
      decreases d, 1
    {
      hide PrintScalars, PrintScalar, Elements, PrintSeq, PrintEntries, Escape, Base64.Encode;
      ghost var was := Contents();
      if d.Str? {
        Mark(QUOTE);
        StrcatEscape(d.chars, true);
        Mark(QUOTE);
        Bracketed(was, QUOTE, Escape(d.chars), QUOTE);
      } else if d.Array? && d.binary {
        Mark(QUOTE);
        DumpBinary(d.bytes);
        Mark(QUOTE);
        Bracketed(was, QUOTE, if d.bytes == [] then [] else Base64.Encode(d.bytes), QUOTE);
      } else if d.Array? {
        CborCodec.ElementsOf(d);
        Mark(Ch('['));
        DumpScalars(Elements(d));
        Mark(Ch(']'));
        Bracketed(was, Ch('['), PrintScalars(Elements(d)), Ch(']'));
      } else if d.Map? {
        Mark(Ch('{'));
        DumpEntries(d.entries);
        Mark(Ch('}'));
        Bracketed(was, Ch('{'), PrintEntries(d.entries, true), Ch('}'));
      } else if d.Vector? {
        Mark(Ch('['));
        DumpSeq(d.slots);
        Mark(Ch(']'));
        Bracketed(was, Ch('['), PrintSeq(d.slots), Ch(']'));
      } else if d.List? {
        Mark(Ch('['));
        DumpSeq(d.elements);
        Mark(Ch(']'));
        Bracketed(was, Ch('['), PrintSeq(d.elements), Ch(']'));
      } else if d.Pointer? {
        NothingPrinted(d);
        NoSuffix(was);
      } else {
        DumpScalar(d);
      }
    }

    static lemma NothingPrinted(d: Data)
      requires d.Pointer?
      ensures Print(d) == []
    {
    }

    static lemma Bracketed(was: seq<Byte>, open: Byte, body: seq<Byte>, close: Byte)
      ensures was + [open] + body + [close] == was + ([open] + body + [close])
    {
    }

    /** The loops over a vector and a list. */
    method DumpSeq(ds: seq<Data>)
      requires Valid() && DumpableSeq(ds)
      modifies this, str
      ensures Valid() && Contents() == old(Contents()) + PrintSeq(ds)
      ensures str == old(str) || fresh(str)
      decreases ds, 0
    {
      hide Print;
      assert ds[0..] == ds;
      for i := 0 to |ds|
        invariant Valid() && (str == old(str) || fresh(str))
        invariant DumpableSeq(ds[i..])
        invariant Contents() + PrintSeq(ds[i..]) == old(Contents()) + PrintSeq(ds)
      {
        assert ds[i..][1..] == ds[i + 1..] && ds[i..][0] == ds[i];
        SeqNext(ds, i, Contents());
        DumpJson(ds[i]);
        if i + 1 < |ds| { Mark(COMMA); }
      }
      NoSuffix(Contents());
    }

    static lemma SeqNext(ds: seq<Data>, i: nat, was: seq<Byte>)
      requires i < |ds|
      ensures was + PrintSeq(ds[i..]) ==
        was + Print(ds[i]) + (if i + 1 < |ds| then [COMMA] else []) + PrintSeq(ds[i + 1..])
    {
      hide Print;
      assert ds[i..][1..] == ds[i + 1..];
    }

    /** The loop over a map. */
    method DumpEntries(es: seq<Entry>)
      requires Valid() && DumpableEntries(es)
      modifies this, str
      ensures Valid() && Contents() == old(Contents()) + PrintEntries(es, true)
      ensures str == old(str) || fresh(str)
      decreases es, 0
    {
      hide PrintEntry;
      var first := true;
      assert es[0..] == es;
      for i := 0 to |es|
        invariant Valid() && (str == old(str) || fresh(str))
        invariant DumpableEntries(es[i..])
        invariant Contents() + PrintEntries(es[i..], first) == old(Contents()) + PrintEntries(es, true)
      {
        assert es[i..][1..] == es[i + 1..] && es[i..][0] == es[i];
        if es[i].value != Missing {
          EntriesNext(es, i, first, Contents());
          if !first { Mark(COMMA); } else { NoSuffix(Contents()); }
          DumpEntry(es[i]);
          first := false;
        }
      }
      NoSuffix(Contents());
    }

    static lemma EntriesNext(es: seq<Entry>, i: nat, first: bool, was: seq<Byte>)
      requires i < |es| && es[i].value != Missing
      ensures was + PrintEntries(es[i..], first) ==
        was + (if first then [] else [COMMA]) + PrintEntry(es[i]) + PrintEntries(es[i + 1..], false)
    {
      hide PrintEntry;
      assert es[i..][1..] == es[i + 1..];
    }

    /** A key that is not a string is put in quotes. */
    method DumpKey(key: Data)
      requires Valid() && Dumpable(key)
      modifies this, str
      ensures Valid() && Contents() == old(Contents()) + if key.Str? then Print(key) else Quoted(Print(key))
      ensures str == old(str) || fresh(str)
      decreases key, 2
    {
      hide Print, Dumpable;
      ghost var was := Contents();
      if !key.Str? { Mark(QUOTE); }
      DumpJson(key);
      if !key.Str? {
        Mark(QUOTE);
        Bracketed(was, QUOTE, Print(key), QUOTE);
      }
    }

    method DumpEntry(e: Entry)
      requires Valid() && DumpableEntry(e) && e.value != Missing
      modifies this, str
      ensures Valid() && Contents() == old(Contents()) + PrintEntry(e)
      ensures str == old(str) || fresh(str)
      decreases e, 1
    {
      hide Print, Quoted;
      ghost var was := Contents();
      ghost var key := if e.key.Str? then Print(e.key) else Quoted(Print(e.key));
      DumpKey(e.key);
      Mark(COLON);
      DumpJson(e.value);
      ThreeParts(was, key, [COLON], Print(e.value));
    }

    static lemma ThreeParts(was: seq<Byte>, a: seq<Byte>, b: seq<Byte>, c: seq<Byte>)
      ensures was + a + b + c == was + (a + b + c)
    {
    }
  }

  /** iot_data_to_json_with_size: for any size of the first buffer the text is the printed value. */
  method ToJson(d: Data, size: nat) returns (text: seq<Byte>)
    requires Dumpable(d) && size > 0
    ensures text == Print(d)
  {
    var holder := new StringHolder(size);
    NoPrefix(Print(d));
    holder.DumpJson(d);
    text := holder.str[..holder.size - holder.free - 1];
  }
}
