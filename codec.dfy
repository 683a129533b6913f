/** _AMQPReader and _AMQPWriter as classes: a cursor over received bytes,
    and an output buffer with a buffer of pending boolean bits. Every method
    is proved to read or write exactly what the functions of Fields say. */
module Codec {
  import opened Wire
  import opened Fields

  /** _AMQPReader over a byte string (the StringIO the source wraps it in):
      data is the whole input and pos the position of the next read. */
  class Reader {
    const data: seq<byte>
    var pos: nat

    ghost predicate Valid()
      reads this
    {
      pos <= |data|
    }

    constructor(source: seq<byte>)
      ensures Valid() && data == source && pos == 0
    {
      data := source;
      pos := 0;
    }

    /** read(n): at most n bytes, fewer at the end of the input. */
    method Read(n: nat) returns (r: seq<byte>)
      requires Valid()
      modifies this
      ensures Valid() && r == Slice(data, old(pos), n) && pos == old(pos) + |r|
    {
      r := data[pos..Min(pos + n, |data|)];
      pos := pos + |r|;
    }

    /** unpack of w bytes read from the input: too few bytes is an error,
        after which the input is exhausted. */
    method ReadUInt(w: nat) returns (r: Result<nat>)
      requires Valid()
      modifies this
      ensures Valid()
      ensures r == Fst(ParseUInt(data, old(pos), w))
      ensures pos == After(ParseUInt(data, old(pos), w), data)
    {
      var b := Read(w);
      if |b| < w {
        r := Err(Truncated);
      } else {
        r := Ok(DecodeUInt(b));
      }
    }

    method ReadOctet() returns (r: Result<nat>)
      requires Valid()
      modifies this
      ensures Valid()
      ensures r == Fst(ParseUInt(data, old(pos), 1))
      ensures pos == After(ParseUInt(data, old(pos), 1), data)
    {
      r := ReadUInt(1);
    }

    method ReadShort() returns (r: Result<nat>)
      requires Valid()
      modifies this
      ensures Valid()
      ensures r == Fst(ParseUInt(data, old(pos), 2))
      ensures pos == After(ParseUInt(data, old(pos), 2), data)
    {
      r := ReadUInt(2);
    }

    method ReadLong() returns (r: Result<nat>)
      requires Valid()
      modifies this
      ensures Valid()
      ensures r == Fst(ParseUInt(data, old(pos), 4))
      ensures pos == After(ParseUInt(data, old(pos), 4), data)
    {
      r := ReadUInt(4);
    }

    method ReadLongLong() returns (r: Result<nat>)
      requires Valid()
      modifies this
      ensures Valid()
      ensures r == Fst(ParseUInt(data, old(pos), 8))
      ensures pos == After(ParseUInt(data, old(pos), 8), data)
    {
      r := ReadUInt(8);
    }

    method ReadShortStr() returns (r: Result<seq<byte>>)
      requires Valid()
      modifies this
      ensures Valid()
      ensures r == Fst(ParseShortStr(data, old(pos)))
      ensures pos == After(ParseShortStr(data, old(pos)), data)
    {
      var n :- ReadOctet();
      assert n == data[old(pos)] by {
        assert data[old(pos)..old(pos) + 1] == [data[old(pos)]];
      }
      var b := Read(n);
      r := Ok(b);
    }

    method ReadLongStr() returns (r: Result<seq<byte>>)
      requires Valid()
      modifies this
      ensures Valid()
      ensures r == Fst(ParseLongStr(data, old(pos)))
      ensures pos == After(ParseLongStr(data, old(pos)), data)
    {
      var n :- ReadLong();
      var b := Read(n);
      r := Ok(b);
    }

    /** read_table: the declared length, the region of that many bytes (or
        fewer at the end of the input), then entries read by a fresh reader
        over the region while its position is below the declared length.
        Whatever the outcome, the whole region has been consumed. */
    method ReadTable() returns (r: Result<seq<Field>>)
      requires Valid()
      modifies this
      ensures Valid()
      ensures r == Fst(ParseTable(data, old(pos)))
      ensures pos == TableEnd(data, old(pos))
      decreases |data| - pos, 1
    {
      ghost var start := pos;
      var n :- ReadLong();
      var region := Read(n);
      ParseTableRegion(data, start);
      var sub := new Reader(region);
      var result: seq<Field> := [];
      while sub.pos < n
        invariant fresh(sub) && sub.Valid() && sub.data == region
        invariant ParseFields(region, sub.pos, n, result) == ParseFields(region, 0, n, [])
        invariant Valid() && pos == TableEnd(data, start)
        decreases |region| - sub.pos
      {
        ghost var p := sub.pos;
        ghost var e := ParseEntry(region, p);
        var entry := sub.ReadEntry();
        if entry.Err? {
          ParseFieldsError(region, p, n, result);
          return Err(entry.error);
        }
        ParseFieldsStep(region, p, n, result, e);
        result := Put(result, entry.value.key, entry.value.value);
      }
      r := Ok(result);
    }

    /** One pass of read_table's loop: read_shortstr for the name, one tag
        byte, then read_longstr for 'S' or read_table for 'F'. */
    method ReadEntry() returns (r: Result<Field>)
      requires Valid()
      modifies this
      ensures Valid()
      ensures r == Fst(ParseEntry(data, old(pos)))
      ensures r.Ok? ==> pos == ParseEntry(data, old(pos)).value.1
      decreases |data| - pos, 0
    {
      var key :- ReadShortStr();
      var tag := Read(1);
      if tag == [TagLongStr] {
        var v :- ReadLongStr();
        r := Ok(Field(key, LongStr(v)));
      } else if tag == [TagTable] {
        var t :- ReadTable();
        r := Ok(Field(key, Table(t)));
      } else {
        r := Err(UnsupportedTag(tag));
      }
    }
  }

  /** _AMQPWriter: out is what has been written, bits the bytes the pending
      booleans are packed into and bitcount how many booleans are pending.
      The ghost pending is the booleans themselves. */
  class Writer {
    var out: seq<byte>
    var bits: seq<byte>
    var bitcount: nat
    ghost var pending: seq<bool>

    ghost predicate Valid()
      reads this
    {
      && bits == PackBits(pending) && bitcount == |pending|
      && (pending == [] ==> bits == [])
    }

    constructor()
      ensures Valid() && out == [] && pending == []
    {
      out := [];
      bits := [];
      bitcount := 0;
      pending := [];
    }

    /** flushbits: the packed bytes go to out, one by one, and the bit
        buffer is emptied. */
    method FlushBits()
      requires Valid()
      modifies this
      ensures Valid() && out == old(out) + old(bits) && pending == []
    {
      if bits != [] {
        var i := 0;
        while i < |bits|
          invariant 0 <= i <= |bits| && out == old(out) + bits[..i]
          invariant bits == old(bits) && pending == old(pending)
        {
          out := out + [bits[i]];
          i := i + 1;
        }
        assert bits[..i] == bits;
        bits := [];
        bitcount := 0;
        pending := [];
        assert |PackBits(pending)| == 0;
      } else {
        assert (|pending| + 7) / 8 == 0;
        assert pending == [];
      }
    }

    /** getvalue: everything written, pending booleans included. */
    method GetValue() returns (r: seq<byte>)
      requires Valid()
      modifies this
      ensures Valid() && r == out == old(out) + old(bits) && pending == []
    {
      FlushBits();
      r := out;
    }

    /** write: raw bytes, after the pending booleans. */
    method Write(s: seq<byte>)
      requires Valid()
      modifies this
      ensures Valid() && out == old(out) + old(bits) + s && pending == []
    {
      FlushBits();
      out := out + s;
    }

    /** write_boolean: b goes into bit bitcount mod 8 of the last pending
        byte, a fresh zero byte being started when that is bit 0. Nothing
        reaches out. */
    method WriteBoolean(b: bool)
      requires Valid()
      modifies this
      ensures Valid() && out == old(out) && pending == old(pending) + [b]
    {
      var bit := if b then 1 else 0;
      var shift := bitcount % 8;
      PackBitsOr(pending, b);
      if shift == 0 {
        bits := bits + [0];
      }
      var last := bits[|bits| - 1];
      bits := bits[|bits| - 1 := BitOr(last, bit * Pow2(shift))];
      bitcount := bitcount + 1;
      pending := pending + [b];
    }

    method WriteOctet(n: byte)
      requires Valid()
      modifies this
      ensures Valid() && out == old(out) + old(bits) + EncodeUInt(n, 1) && pending == []
    {
      Pow256Widths();
      Write(EncodeUInt(n, 1));
    }

    method WriteShort(n: u16)
      requires Valid()
      modifies this
      ensures Valid() && out == old(out) + old(bits) + U16(n) && pending == []
    {
      Write(U16(n));
    }

    method WriteLong(n: u32)
      requires Valid()
      modifies this
      ensures Valid() && out == old(out) + old(bits) + U32(n) && pending == []
    {
      Write(U32(n));
    }

    method WriteLongLong(n: u64)
      requires Valid()
      modifies this
      ensures Valid() && out == old(out) + old(bits) + U64(n) && pending == []
    {
      Write(U64(n));
    }

    /** write_shortstr: the pending booleans are flushed first; a string of
        more than 255 bytes then fails and adds nothing more. */
    method WriteShortStr(s: seq<byte>) returns (r: Outcome)
      requires Valid()
      modifies this
      ensures Valid() && pending == []
      ensures r.Pass? <==> EncodeShortStr(s).Ok?
      ensures r.Pass? ==> out == old(out) + old(bits) + EncodeShortStr(s).value
      ensures r.Fail? ==> r.error == EncodeShortStr(s).error && out == old(out) + old(bits)
    {
      FlushBits();
      if |s| > 255 {
        return Fail(StringTooLong);
      }
      WriteOctet(|s|);
      out := out + s;
      return Pass;
    }

    /** write_longstr: the pending booleans, a 4-byte length and the bytes;
        a length that does not fit in 4 bytes fails in pack. */
    method WriteLongStr(s: seq<byte>) returns (r: Outcome)
      requires Valid()
      modifies this
      ensures Valid() && pending == []
      ensures r.Pass? <==> EncodeLongStr(s).Ok?
      ensures r.Pass? ==> out == old(out) + old(bits) + EncodeLongStr(s).value
      ensures r.Fail? ==> r.error == EncodeLongStr(s).error && out == old(out) + old(bits)
    {
      FlushBits();
      if |s| >= 0x1_0000_0000 {
        return Fail(OutOfRange);
      }
      WriteLong(|s|);
      out := out + s;
      return Pass;
    }

    /** write_table: the entries are written, in order, to a separate
        writer, then its length and its bytes are written here. Nothing but
        the flushed booleans reaches out when an entry or the length fails. */
    method WriteTable(d: seq<Field>) returns (r: Outcome)
      requires Valid()
      modifies this
      ensures Valid() && pending == []
      ensures r.Pass? <==> EncodeTable(d).Ok?
      ensures r.Pass? ==> out == old(out) + old(bits) + EncodeTable(d).value
      ensures r.Fail? ==> r.error == EncodeTable(d).error && out == old(out) + old(bits)
      decreases d
    {
      FlushBits();
      var tableData := new Writer();
      var i := 0;
      while i < |d|
        invariant 0 <= i <= |d| && fresh(tableData)
        invariant Valid() && out == old(out) + old(bits) && pending == []
        invariant tableData.Valid() && tableData.pending == []
        invariant EncodeFields(d[..i]) == Ok(tableData.out)
      {
        EncodeFieldsPrefix(d, i);
        var e := tableData.WriteField(d[i]);
        if e.Fail? {
          return Fail(e.error);
        }
        i := i + 1;
      }
      assert d[..i] == d;
      var body := tableData.GetValue();
      if |body| >= 0x1_0000_0000 {
        return Fail(OutOfRange);
      }
      WriteLong(|body|);
      out := out + body;
      return Pass;
    }

    /** One pass of write_table's loop: the key as a short string, then 'S'
        and a long string, or 'F' and a nested table. */
    method WriteField(f: Field) returns (r: Outcome)
      requires Valid() && pending == []
      modifies this
      ensures Valid() && pending == []
      ensures r.Pass? <==> EncodeField(f).Ok?
      ensures r.Pass? ==> out == old(out) + EncodeField(f).value
      ensures r.Fail? ==> r.error == EncodeField(f).error
      decreases f
    {
      assert bits == [];
      r := WriteShortStr(f.key);
      if r.Fail? {
        return;
      }
      ghost var key := out;
      match f.value {
        case LongStr(bytes) =>
          Write([TagLongStr]);
          r := WriteLongStr(bytes);
        case Table(inner) =>
          Write([TagTable]);
          r := WriteTable(inner);
      }
      if r.Pass? {
        assert out == key + EncodeValue(f.value).value;
      }
    }
  }
}
