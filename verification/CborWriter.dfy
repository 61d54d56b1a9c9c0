// The growing buffer of src/c/data-cbor.c and the writer that fills it. Every method appends what
// CborCodec says, and every write is within the buffer.
module CborWriter {
  import opened Bytes
  import opened Sequences
  import opened ArrayElements
  import opened DataOrder
  import opened CborFormat
  import opened CborCodec

  const DOUBLING_LIMIT: nat := 4096
  const INCREMENT: nat := 1024

  class Holder {
    var data: array<Byte>
    var size: nat
    var index: nat

    ghost predicate Valid()
      reads this
    {
      size == data.Length && index <= size
    }

    ghost function Contents(): seq<Byte>
      requires Valid()
      reads this, data
    {
      data[..index]
    }

    constructor (capacity: nat)
      ensures Valid() && Contents() == [] && fresh(data) && size == capacity
    {
      data := new Byte[capacity](_ => 0);
      size, index := capacity, 0;
    }

    /** iot_cbor_holder_check_size: the buffer doubles up to a limit, then grows by a fixed amount; more than
        that only when the request needs it. */
    method CheckSize(required: nat)
      requires Valid()
      modifies this`data, this`size
      ensures Valid() && index + required <= size
      ensures Contents() == old(Contents())
      ensures data == old(data) || fresh(data)
      ensures size == old(size) || size == old(size) + required || size == old(size) + Growth(old(size))
    {
      var total := index + required;
      if size < total {
        var inc := Growth(size);
        if size + inc < total { inc := required; }
        size := size + inc;
        var bigger := new Byte[size](_ => 0);
        forall i | 0 <= i < index {
          bigger[i] := data[i];
        }
        data := bigger;
      }
    }

    static function Growth(size: nat): nat {
      if size > DOUBLING_LIMIT then INCREMENT else size
    }

    /** One byte, after the size has been checked. */
    method PutByte(b: Byte)
      requires Valid() && index < size
      modifies this`index, data
      ensures Valid() && index == old(index) + 1 && size == old(size)
      ensures Contents() == old(Contents()) + [b]
    {
      data[index] := b;
      index := index + 1;
    }

    /** The store of a number in network byte order. */
    method PutBigEndian(value: nat, n: nat)
      requires Valid() && index + n <= size
      modifies this`index, data
      ensures Valid() && index == old(index) + n && size == old(size)
      ensures Contents() == old(Contents()) + BigEndian(value, n)
    {
      ghost var bytes := BigEndian(value, n);
      forall i | 0 <= i < n {
        data[index + i] := BigEndian(value, n)[i];
      }
      index := index + n;
    }

    /** iot_data_cbor_write_bytes */
    method WriteBytes(bytes: seq<Byte>)
      requires Valid()
      modifies this, data
      ensures Valid() && Contents() == old(Contents()) + bytes
      ensures data == old(data) || fresh(data)
    {
      CheckSize(|bytes|);
      forall i | 0 <= i < |bytes| {
        data[index + i] := bytes[i];
      }
      index := index + |bytes|;
    }

    /** A head of one byte and an argument of n. */
    method WriteLong(first: Byte, value: nat, n: nat)
      requires Valid()
      modifies this, data
      ensures Valid() && Contents() == old(Contents()) + ([first] + BigEndian(value, n))
      ensures data == old(data) || fresh(data)
    {
      CheckSize(n + 1);
      ghost var was := Contents();
      PutByte(first);
      PutBigEndian(value, n);
      Assoc(was, [first], BigEndian(value, n));
    }

    /** iot_data_cbor_write_uint */
    method WriteUint(value: nat, tag: Byte)
      requires Valid() && tag % 32 == 0
      modifies this, data
      ensures Valid() && Contents() == old(Contents()) + CborFormat.WriteUint(value, tag)
      ensures data == old(data) || fresh(data)
    {
      hide BigEndian;
      if value < 0x18 {
        CheckSize(1);
        PutByte(value + tag);
      } else if value <= 0xFF {
        CheckSize(2);
        ghost var was := Contents();
        PutByte(0x18 + tag);
        PutByte(value);
        Assoc(was, [0x18 + tag], [value]);
        assert [0x18 + tag] + [value] == [0x18 + tag, value];
      } else if value <= 0xFFFF {
        WriteLong(0x19 + tag, value, 2);
      } else if value <= 0xFFFF_FFFF {
        WriteLong(0x1a + tag, value, 4);
      } else {
        WriteLong(0x1b + tag, value, 8);
      }
    }

    /** iot_data_cbor_write_int */
    method WriteInt(v: int)
      requires Valid()
      modifies this, data
      ensures Valid() && Contents() == old(Contents()) + CborCodec.WriteInt(v)
      ensures data == old(data) || fresh(data)
    {
      WriteUint(if v < 0 then -1 - v else v, if v < 0 then 0x20 else 0);
    }

    /** iot_data_dump_cbor_ptr, and the scalar cases of iot_data_dump_cbor. */
    method DumpScalar(d: Data)
      requires Valid() && (Scalar(d) || d.Missing?)
      modifies this, data
      ensures Valid() && Contents() == old(Contents()) + EncodeScalar(d)
      ensures data == old(data) || fresh(data)
    {
      hide CborCodec.WriteInt;
      if d.Int? {
        WriteInt(d.value);
      } else {
        CheckSize(1);
        PutByte(if d.Bool? then (if d.truth then 0xf5 else 0xf4) else 0xf6);
      }
    }

    method DumpScalars(ds: seq<Data>)
      requires Valid() && forall i :: 0 <= i < |ds| ==> Scalar(ds[i])
      modifies this, data
      ensures Valid() && Contents() == old(Contents()) + EncodeScalars(ds)
      ensures data == old(data) || fresh(data)
    {
      hide EncodeScalar, Scalar;
      assert ds[0..] == ds;
      for i := 0 to |ds|
        invariant Valid() && (data == old(data) || fresh(data))
        invariant Contents() + EncodeScalars(ds[i..]) == old(Contents()) + EncodeScalars(ds)
      {
        Assoc(Contents(), EncodeScalar(ds[i]), EncodeScalars(ds[i + 1..]));
        assert ds[i..][1..] == ds[i + 1..];
        DumpScalar(ds[i]);
      }
      NoSuffix(Contents());
    }

    /** iot_data_dump_cbor */
    method Dump(d: Data)
      requires Valid() && (Encodable(d) || d.Missing?)
      modifies this, data
      ensures Valid() && Contents() == old(Contents()) + Encode(d)
      ensures data == old(data) || fresh(data)
      decreases d, 1
    {
      hide EncodeScalars, CborFormat.WriteUint, Elements, KeysDiffer;
      ghost var was := Contents();
      if Scalar(d) || d.Missing? {
        DumpScalar(d);
      } else if d.Str? {
        WriteUint(|d.chars|, 0x60);
        WriteBytes(d.chars);
        Assoc(was, CborFormat.WriteUint(|d.chars|, 0x60), d.chars);
      } else if d.Array? && d.binary {
        WriteUint(|d.bytes|, 0x40);
        WriteBytes(d.bytes);
        Assoc(was, CborFormat.WriteUint(|d.bytes|, 0x40), d.bytes);
      } else if d.Array? {
        ElementsOf(d);
        WriteUint(d.length, 0x80);
        DumpScalars(Elements(d));
        Assoc(was, CborFormat.WriteUint(d.length, 0x80), EncodeScalars(Elements(d)));
      } else if d.Vector? {
        WriteUint(|d.slots|, 0x80);
        DumpSeq(d.slots);
        Assoc(was, CborFormat.WriteUint(|d.slots|, 0x80), EncodeSeq(d.slots));
      } else if d.List? {
        WriteUint(|d.elements|, 0x80);
        DumpSeq(d.elements);
        Assoc(was, CborFormat.WriteUint(|d.elements|, 0x80), EncodeSeq(d.elements));
      } else {
        WriteUint(|d.entries|, 0xA0);
        DumpEntries(d.entries);
        Assoc(was, CborFormat.WriteUint(|d.entries|, 0xA0), EncodeEntries(d.entries));
      }
    }

    /** The loops over a vector and a list. */
    method DumpSeq(ds: seq<Data>)
      requires Valid() && EncodableSeq(ds)
      modifies this, data
      ensures Valid() && Contents() == old(Contents()) + EncodeSeq(ds)
      ensures data == old(data) || fresh(data)
      decreases ds, 0
    {
      assert ds[0..] == ds;
      for i := 0 to |ds|
        invariant Valid() && (data == old(data) || fresh(data))
        invariant EncodableSeq(ds[i..])
        invariant Contents() + EncodeSeq(ds[i..]) == old(Contents()) + EncodeSeq(ds)
      {
        Assoc(Contents(), Encode(ds[i]), EncodeSeq(ds[i + 1..]));
        assert ds[i..][1..] == ds[i + 1..] && ds[i..][0] == ds[i];
        Dump(ds[i]);
      }
      NoSuffix(Contents());
    }

    /** The loop over a map: keys and values in turn, and null for a NULL value. */
    method DumpEntries(es: seq<Entry>)
      requires Valid() && EncodableEntries(es)
      modifies this, data
      ensures Valid() && Contents() == old(Contents()) + EncodeEntries(es)
      ensures data == old(data) || fresh(data)
      decreases es, 0
    {
      assert es[0..] == es;
      for i := 0 to |es|
        invariant Valid() && (data == old(data) || fresh(data))
        invariant EncodableEntries(es[i..])
        invariant Contents() + EncodeEntries(es[i..]) == old(Contents()) + EncodeEntries(es)
      {
        assert es[i..][1..] == es[i + 1..] && es[i..][0] == es[i];
        ghost var was := Contents();
        DumpEntry(es[i]);
        Assoc(was, EncodeEntry(es[i]), EncodeEntries(es[i + 1..]));
      }
      NoSuffix(Contents());
    }

    method DumpEntry(e: Entry)
      requires Valid() && EncodableEntry(e)
      modifies this, data
      ensures Valid() && Contents() == old(Contents()) + EncodeEntry(e)
      ensures data == old(data) || fresh(data)
      decreases e, 1
    {
      Assoc(Contents(), Encode(e.key), Encode(e.value));
      Dump(e.key);
      Dump(e.value);
    }
  }

  /** iot_data_to_cbor_with_size: for any size of the first buffer the bytes are the encoding. */
  method ToCbor(d: Data, size: nat) returns (bytes: seq<Byte>)
    requires Encodable(d) && size > 0
    ensures bytes == Encode(d)
  {
    var holder := new Holder(size);
    NoPrefix(Encode(d));
    holder.Dump(d);
    bytes := holder.data[..holder.index];
  }
}
