/** The AMQP field codec as functions on byte strings: short and long
    strings, field tables, and the packing of boolean fields into bytes.
    Codec's Reader and Writer classes are proved to compute exactly these. */
module Fields {
  import opened Wire

  const TagLongStr: byte := 83  // 'S'
  const TagTable: byte := 70    // 'F'

  /** A field-table value. Only long strings ('S') and nested tables ('F')
      are modelled. */
  datatype Value = LongStr(bytes: seq<byte>) | Table(fields: seq<Field>)

  /** One entry of a field table, in the order the table's items are written. */
  datatype Field = Field(key: seq<byte>, value: Value)

  // ---------------------------------------------------------------------
  // Encoding (_AMQPWriter)

  /** write_shortstr: a 1-byte length, then the bytes; longer than 255 bytes is an error. */
  function EncodeShortStr(s: seq<byte>): (r: Result<seq<byte>>)
    ensures r.Ok? <==> |s| <= 255
    ensures r.Ok? ==> |r.value| == |s| + 1
  {
    if |s| > 255 then Err(StringTooLong) else Ok([|s|] + s)
  }

  /** write_longstr: a 4-byte big-endian length, then the bytes. */
  function EncodeLongStr(s: seq<byte>): (r: Result<seq<byte>>)
    ensures r.Ok? <==> |s| < 0x1_0000_0000
    ensures r.Ok? ==> |r.value| == |s| + 4
  {
    if |s| >= 0x1_0000_0000 then Err(OutOfRange) else Ok(U32(|s|) + s)
  }

  /** One table value: its type tag, then its encoding. */
  function EncodeValue(v: Value): (r: Result<seq<byte>>)
    decreases v, 2
    ensures r.Ok? ==> |r.value| >= 5 && r.value[0] == (if v.LongStr? then TagLongStr else TagTable)
  {
    match v
    case LongStr(s) =>
      var e :- EncodeLongStr(s);
      Ok([TagLongStr] + e)
    case Table(fs) =>
      var e :- EncodeTable(fs);
      Ok([TagTable] + e)
  }

  /** One table entry: the key as a short string, then the tagged value. */
  function EncodeField(f: Field): (r: Result<seq<byte>>)
    decreases f, 3
    ensures |f.key| > 255 ==> r == Err(StringTooLong)
    ensures r.Ok? ==> |r.value| >= |f.key| + 6 && r.value[0] as nat == |f.key|
  {
    var k :- EncodeShortStr(f.key);
    var v :- EncodeValue(f.value);
    Ok(k + v)
  }

  /** The entries of a table, one after the other; the first error wins. */
  function EncodeFields(fs: seq<Field>): (r: Result<seq<byte>>)
    decreases fs, 0
    ensures r.Ok? <==> forall i | 0 <= i < |fs| :: EncodeField(fs[i]).Ok?
  {
    if fs == [] then Ok([])
    else
      var h :- EncodeField(fs[0]);
      var t :- EncodeFields(fs[1..]);
      Ok(h + t)
  }

  /** write_table: the entries are encoded into a separate buffer, and its
      length is written as a 4-byte prefix. */
  function EncodeTable(fs: seq<Field>): (r: Result<seq<byte>>)
    decreases fs, 1
    ensures EncodeFields(fs).Err? ==> r.Err?
    ensures r.Ok? ==> |r.value| >= 4
  {
    var body :- EncodeFields(fs);
    if |body| >= 0x1_0000_0000 then Err(OutOfRange) else Ok(U32(|body|) + body)
  }

  /** Encoding the entries a + b encodes a, then b; the first error wins. */
  lemma {:induction false} EncodeFieldsSplit(a: seq<Field>, b: seq<Field>)
    ensures EncodeFields(a + b) ==
      (match EncodeFields(a)
       case Err(e) => Err(e)
       case Ok(x) => match EncodeFields(b) case Err(e) => Err(e) case Ok(y) => Ok(x + y))
  {
    if a == [] {
      assert a + b == b;
      match EncodeFields(b)
      case Err(e) =>
      case Ok(y) => assert [] + y == y;
    } else {
      var g := a + b;
      assert g[0] == a[0] && g[1..] == a[1..] + b;
      EncodeFieldsSplit(a[1..], b);
      match EncodeField(a[0])
      case Err(e) =>
        assert EncodeFields(g) == Err(e);
      case Ok(h) =>
        match EncodeFields(a[1..])
        case Err(e) =>
          assert EncodeFields(g) == Err(e);
        case Ok(t) =>
          match EncodeFields(b)
          case Err(e) =>
            assert EncodeFields(g) == Err(e);
          case Ok(y) =>
            assert EncodeFields(g) == Ok(h + (t + y));
            assert h + (t + y) == (h + t) + y;
    }
  }

  /** write_table's loop after i entries: entry i is appended to what the
      first i encode to, or its error is the error of the whole list. */
  lemma EncodeFieldsPrefix(d: seq<Field>, i: nat)
    requires i < |d| && EncodeFields(d[..i]).Ok?
    ensures EncodeField(d[i]).Ok? ==>
      EncodeFields(d[..i + 1]) == Ok(EncodeFields(d[..i]).value + EncodeField(d[i]).value)
    ensures EncodeField(d[i]).Err? ==> EncodeFields(d) == Err(EncodeField(d[i]).error)
  {
    EncodeFieldsSplit(d[..i], [d[i]]);
    assert d[..i + 1] == d[..i] + [d[i]] && [d[i]][1..] == [];
    EncodeFieldsSplit(d[..i], d[i..]);
    assert d == d[..i] + d[i..] && d[i..][0] == d[i];
    if EncodeField(d[i]).Ok? {
      var h := EncodeField(d[i]).value;
      assert EncodeFields([d[i]]) == Ok(h + []) && h + [] == h;
    }
  }

  // ---------------------------------------------------------------------
  // Decoding (_AMQPReader). Each parser reads the input s from position pos
  // and returns the value and the position after it.

  /** read_octet, read_short, read_long, read_longlong (w = 1, 2, 4, 8): w
      bytes, most significant first; fewer than w bytes left is an error. */
  function ParseUInt(s: seq<byte>, pos: nat, w: nat): (r: Result<(nat, nat)>)
    requires pos <= |s|
    ensures r.Ok? <==> pos + w <= |s|
    ensures r.Ok? ==> r.value.1 == pos + w && r.value.0 < Pow256(w)
  {
    if pos + w > |s| then Err(Truncated) else Ok((DecodeUInt(s[pos..pos + w]), pos + w))
  }

  /** The value a parser returns, without the position after it. */
  function Fst<T>(r: Result<(T, nat)>): Result<T>
  {
    if r.Ok? then Ok(r.value.0) else Err(r.error)
  }

  /** Where a read leaves the input: after what the parser consumed, or at
      the end of the input when the parser ran out of it. */
  function After<T>(r: Result<(T, nat)>, s: seq<byte>): nat
  {
    if r.Ok? then r.value.1 else |s|
  }

  /** read_shortstr: the length byte, then at most that many bytes (a read
      at the end of the input returns fewer, silently). */
  function ParseShortStr(s: seq<byte>, pos: nat): (r: Result<(seq<byte>, nat)>)
    requires pos <= |s|
    ensures r.Ok? <==> pos < |s|
    ensures r.Ok? ==> pos + 1 <= r.value.1 <= |s| && r.value.0 == s[pos + 1..r.value.1]
    ensures r.Ok? ==> r.value.1 == Min(pos + 1 + s[pos], |s|)
  {
    if pos >= |s| then Err(Truncated)
    else
      var str := Slice(s, pos + 1, s[pos]);
      Ok((str, pos + 1 + |str|))
  }

  /** read_longstr: a 4-byte length, then at most that many bytes. */
  function ParseLongStr(s: seq<byte>, pos: nat): (r: Result<(seq<byte>, nat)>)
    requires pos <= |s|
    ensures r.Ok? <==> pos + 4 <= |s|
    ensures r.Ok? ==> pos + 4 <= r.value.1 <= |s| && r.value.0 == s[pos + 4..r.value.1]
    ensures r.Ok? ==> r.value.1 == Min(pos + 4 + DecodeUInt(s[pos..pos + 4]), |s|)
  {
    if pos + 4 > |s| then Err(Truncated)
    else
      var str := Slice(s, pos + 4, DecodeUInt(s[pos..pos + 4]));
      Ok((str, pos + 4 + |str|))
  }

  /** Where read_table leaves the input, whether it succeeds or not: after
      the 4-byte length and the (possibly short) table region. */
  function TableEnd(s: seq<byte>, pos: nat): (r: nat)
    requires pos <= |s|
    ensures pos <= r <= |s|
  {
    if pos + 4 > |s| then |s| else Min(pos + 4 + DecodeUInt(s[pos..pos + 4]), |s|)
  }

  /** read_table: the 4-byte length n, then the next n bytes (the region)
      are parsed as entries by a reader of their own while its position is
      below n. */
  function ParseTable(s: seq<byte>, pos: nat): (r: Result<(seq<Field>, nat)>)
    requires pos <= |s|
    ensures r.Ok? ==> pos + 4 <= |s| && r.value.1 == pos + 4 + DecodeUInt(s[pos..pos + 4]) <= |s|
    ensures r.Ok? ==> r.value.1 == TableEnd(s, pos)
    decreases |s| - pos, 2
  {
    if pos + 4 > |s| then Err(Truncated)
    else
      var region := Slice(s, pos + 4, DecodeUInt(s[pos..pos + 4]));
      var fs :- ParseFields(region, 0, DecodeUInt(s[pos..pos + 4]), []);
      Ok((fs, pos + 4 + |region|))
  }

  /** read_table's result is that of its loop over the region, and it ends
      after the region. */
  lemma ParseTableRegion(s: seq<byte>, pos: nat)
    requires pos + 4 <= |s|
    ensures var region := Slice(s, pos + 4, DecodeUInt(s[pos..pos + 4]));
      && Fst(ParseTable(s, pos)) == ParseFields(region, 0, DecodeUInt(s[pos..pos + 4]), [])
      && TableEnd(s, pos) == pos + 4 + |region|
  {
  }

  /** The loop of read_table from position pos of the region, with acc the
      dictionary built so far; declared is the table's declared length. */
  function ParseFields(region: seq<byte>, pos: nat, declared: nat, acc: seq<Field>): (r: Result<seq<Field>>)
    requires pos <= |region|
    ensures r.Ok? ==> declared <= |region|
    decreases |region| - pos, 1
  {
    if pos >= declared then Ok(acc)
    else
      match ParseEntry(region, pos)
      case Err(e) => Err(e)
      case Ok(x) => ParseFields(region, x.1, declared, Put(acc, x.0.key, x.0.value))
  }

  /** One pass of read_table's loop while the position is below the
      declared length: an entry that fails to parse fails the table... */
  lemma ParseFieldsError(region: seq<byte>, pos: nat, declared: nat, acc: seq<Field>)
    requires pos < declared && pos <= |region| && ParseEntry(region, pos).Err?
    ensures ParseFields(region, pos, declared, acc) == Err(ParseEntry(region, pos).error)
  {
  }

  /** ...and one that parses is stored, and the loop goes on after it. */
  lemma ParseFieldsStep(region: seq<byte>, pos: nat, declared: nat, acc: seq<Field>, e: Result<(Field, nat)>)
    requires pos < declared && pos <= |region| && e == ParseEntry(region, pos) && e.Ok?
    ensures e.value.1 <= |region|
    ensures ParseFields(region, pos, declared, acc) == ParseFields(region, e.value.1, declared, Put(acc, e.value.0.key, e.value.0.value))
  {
  }

  /** One pass of read_table's loop: the key, the 1-byte tag and the value
      the tag selects. */
  function ParseEntry(s: seq<byte>, pos: nat): (r: Result<(Field, nat)>)
    requires pos <= |s|
    ensures r.Ok? ==> pos + 2 <= r.value.1 <= |s|
    decreases |s| - pos, 0
  {
    var key :- ParseShortStr(s, pos);
    var tag := Slice(s, key.1, 1);
    var p := key.1 + |tag|;
    if tag == [TagLongStr] then
      var v :- ParseLongStr(s, p);
      Ok((Field(key.0, LongStr(v.0)), v.1))
    else if tag == [TagTable] then
      var t :- ParseTable(s, p);
      Ok((Field(key.0, Table(t.0)), t.1))
    else
      Err(UnsupportedTag(tag))
  }

  function Keys(fs: seq<Field>): set<seq<byte>>
  {
    set i | 0 <= i < |fs| :: fs[i].key
  }

  lemma KeysCons(f: Field, fs: seq<Field>)
    ensures Keys([f] + fs) == {f.key} + Keys(fs)
  {
    var g := [f] + fs;
    forall k | k in Keys(g) ensures k in {f.key} + Keys(fs) {
      var i :| 0 <= i < |g| && g[i].key == k;
      if i > 0 { assert fs[i - 1].key == k; }
    }
    forall k | k in Keys(fs) ensures k in Keys(g) {
      var i :| 0 <= i < |fs| && fs[i].key == k;
      assert g[i + 1].key == k;
    }
    assert g[0].key == f.key;
  }

  /** Python's result[key] = value on a dictionary kept as its items: an
      existing key keeps its place and takes the new value, a new key is
      added at the end. */
  function Put(fs: seq<Field>, key: seq<byte>, v: Value): seq<Field>
  {
    if fs == [] then [Field(key, v)]
    else if fs[0].key == key then [Field(key, v)] + fs[1..]
    else [fs[0]] + Put(fs[1..], key, v)
  }

  /** The value a dictionary holds under key k. */
  function Lookup(fs: seq<Field>, k: seq<byte>): Option<Value>
  {
    if fs == [] then None
    else if fs[0].key == k then Some(fs[0].value)
    else Lookup(fs[1..], k)
  }

  /** After result[key] = v, key holds v and every other key what it held. */
  lemma {:induction false} PutLookup(fs: seq<Field>, key: seq<byte>, v: Value, k: seq<byte>)
    ensures Lookup(Put(fs, key, v), k) == if k == key then Some(v) else Lookup(fs, k)
  {
    if fs != [] && fs[0].key != key {
      PutLookup(fs[1..], key, v, k);
      assert Put(fs, key, v)[1..] == Put(fs[1..], key, v);
    }
  }

  /** A new key is added at the end. */
  lemma {:induction false} PutFresh(fs: seq<Field>, key: seq<byte>, v: Value)
    requires key !in Keys(fs)
    ensures Put(fs, key, v) == fs + [Field(key, v)]
  {
    if fs != [] {
      KeysCons(fs[0], fs[1..]);
      assert fs == [fs[0]] + fs[1..];
      PutFresh(fs[1..], key, v);
    }
  }

  lemma KeysSnoc(fs: seq<Field>, f: Field)
    ensures Keys(fs + [f]) == Keys(fs) + {f.key}
  {
    var g := fs + [f];
    forall k | k in Keys(g) ensures k in Keys(fs) + {f.key} {
      var i :| 0 <= i < |g| && g[i].key == k;
      if i < |fs| { assert fs[i].key == k; }
    }
    forall k | k in Keys(fs) ensures k in Keys(g) {
      var i :| 0 <= i < |fs| && fs[i].key == k;
      assert g[i].key == k;
    }
    assert g[|fs|].key == f.key;
  }

  // ---------------------------------------------------------------------
  // Round trips

  /** Keys are unique at every level of a table, as in the Python
      dictionaries the writer is given. */
  predicate UniqueKeys(fs: seq<Field>)
  {
    && (forall i, j | 0 <= i < j < |fs| :: fs[i].key != fs[j].key)
    && (forall i | 0 <= i < |fs| :: UniqueKeysIn(fs[i].value))
  }

  predicate UniqueKeysIn(v: Value)
  {
    match v
    case LongStr(_) => true
    case Table(fs) => UniqueKeys(fs)
  }

  /** The bytes e sit at position pos of s. */
  predicate At(s: seq<byte>, pos: nat, e: seq<byte>)
  {
    pos + |e| <= |s| && s[pos..pos + |e|] == e
  }

  /** Bytes a + b at pos are a at pos and b right after. */
  lemma AtSplit(s: seq<byte>, pos: nat, a: seq<byte>, b: seq<byte>)
    requires At(s, pos, a + b)
    ensures At(s, pos, a) && At(s, pos + |a|, b)
  {
    assert s[pos..pos + |a|] == (a + b)[..|a|];
    assert s[pos + |a|..pos + |a| + |b|] == (a + b)[|a|..];
  }

  /** An integer written in w bytes reads back as itself. */
  lemma UIntRoundTrip(s: seq<byte>, pos: nat, n: nat, w: nat)
    requires n < Pow256(w) && At(s, pos, EncodeUInt(n, w))
    ensures ParseUInt(s, pos, w) == Ok((n, pos + w))
  {
    DecodeEncode(n, w);
  }

  /** A short string of at most 255 bytes reads back as itself, one length
      byte plus its bytes; a longer one is refused with StringTooLong. */
  lemma ShortStrRoundTrip(x: seq<byte>, s: seq<byte>, pos: nat)
    requires |x| <= 255 ==> At(s, pos, EncodeShortStr(x).value)
    ensures |x| > 255 <==> EncodeShortStr(x) == Err(StringTooLong)
    ensures |x| <= 255 ==> ParseShortStr(s, pos) == Ok((x, pos + 1 + |x|))
  {
    if |x| <= 255 {
      AtSplit(s, pos, [|x|], x);
      assert s[pos] == s[pos..pos + 1][0];
    }
  }

  /** A long string reads back as itself, 4 length bytes plus its bytes. */
  lemma LongStrRoundTrip(x: seq<byte>, s: seq<byte>, pos: nat)
    requires |x| < 0x1_0000_0000 && At(s, pos, EncodeLongStr(x).value)
    ensures ParseLongStr(s, pos) == Ok((x, pos + 4 + |x|))
  {
    Pow256Widths();
    AtSplit(s, pos, U32(|x|), x);
    DecodeEncode(|x|, 4);
  }

  /** read_table of write_table's output gives back the same entries, in the
      same order, and ends right after the bytes the writer produced. */
  lemma {:induction false} TableRoundTrip(fs: seq<Field>, s: seq<byte>, pos: nat)
    requires EncodeTable(fs).Ok? && UniqueKeys(fs) && At(s, pos, EncodeTable(fs).value)
    ensures ParseTable(s, pos) == Ok((fs, pos + |EncodeTable(fs).value|))
    decreases fs, 2
  {
    var body := EncodeFields(fs).value;
    assert EncodeTable(fs).value == U32(|body|) + body;
    TableRegion(s, pos, body);
    assert ParseFields(body, 0, |body|, []) == Ok(fs) by {
      assert At(body, 0, body);
      assert Keys([]) == {};
      FieldsRoundTrip(body, 0, fs, []);
      assert [] + fs == fs;
    }
    TableFromRegion(s, pos, fs);
  }

  /** A table whose region reads as fs is fs, and ends after its region. */
  lemma TableFromRegion(s: seq<byte>, pos: nat, fs: seq<Field>)
    requires pos + 4 <= |s|
    requires ParseFields(Slice(s, pos + 4, DecodeUInt(s[pos..pos + 4])), 0, DecodeUInt(s[pos..pos + 4]), []) == Ok(fs)
    ensures ParseTable(s, pos) == Ok((fs, pos + 4 + DecodeUInt(s[pos..pos + 4])))
  {
  }

  /** A region written with its 4-byte length is read back as the region. */
  lemma TableRegion(s: seq<byte>, pos: nat, body: seq<byte>)
    requires |body| < 0x1_0000_0000 && At(s, pos, U32(|body|) + body)
    ensures pos + 4 <= |s| && DecodeUInt(s[pos..pos + 4]) == |body|
    ensures Slice(s, pos + 4, |body|) == body
  {
    Pow256Widths();
    AtSplit(s, pos, U32(|body|), body);
    DecodeEncode(|body|, 4);
  }

  /** One entry reads back as itself and ends right after its encoding. */
  lemma {:induction false} EntryRoundTrip(f: Field, s: seq<byte>, pos: nat)
    requires EncodeField(f).Ok? && UniqueKeysIn(f.value) && At(s, pos, EncodeField(f).value)
    ensures ParseEntry(s, pos) == Ok((f, pos + |EncodeField(f).value|))
    decreases f, 1
  {
    var k := EncodeShortStr(f.key).value;
    match f.value
    case LongStr(bytes) =>
      var v := EncodeLongStr(bytes).value;
      assert EncodeField(f).value == k + [TagLongStr] + v;
      LongStrEntryRoundTrip(f.key, bytes, s, pos);
    case Table(inner) =>
      var v := EncodeTable(inner).value;
      assert EncodeField(f).value == k + [TagTable] + v;
      TableEntryRoundTrip(f.key, inner, s, pos);
  }

  /** An entry holding a long string reads back as itself. */
  lemma LongStrEntryRoundTrip(key: seq<byte>, bytes: seq<byte>, s: seq<byte>, pos: nat)
    requires |key| <= 255 && |bytes| < 0x1_0000_0000
    requires At(s, pos, EncodeShortStr(key).value + [TagLongStr] + EncodeLongStr(bytes).value)
    ensures ParseEntry(s, pos) == Ok((Field(key, LongStr(bytes)), pos + |key| + 6 + |bytes|))
  {
    var head := EncodeShortStr(key).value + [TagLongStr];
    AtSplit(s, pos, head, EncodeLongStr(bytes).value);
    var p := KeyAndTag(key, TagLongStr, s, pos);
    LongStrRoundTrip(bytes, s, p + 1);
    EntryLongStr(s, pos, key, p, (bytes, p + 1 + 4 + |bytes|));
  }

  /** An entry holding a table reads back as itself. */
  lemma {:induction false} TableEntryRoundTrip(key: seq<byte>, inner: seq<Field>, s: seq<byte>, pos: nat)
    requires |key| <= 255 && EncodeTable(inner).Ok? && UniqueKeys(inner)
    requires At(s, pos, EncodeShortStr(key).value + [TagTable] + EncodeTable(inner).value)
    ensures ParseEntry(s, pos) == Ok((Field(key, Table(inner)), pos + |key| + 2 + |EncodeTable(inner).value|))
    decreases Table(inner), 0
  {
    var head := EncodeShortStr(key).value + [TagTable];
    AtSplit(s, pos, head, EncodeTable(inner).value);
    var p := KeyAndTag(key, TagTable, s, pos);
    TableRoundTrip(inner, s, p + 1);
    EntryTable(s, pos, key, p, (inner, p + 1 + |EncodeTable(inner).value|));
  }

  /** An entry's key reads back as itself and is followed by its tag. */
  lemma KeyAndTag(key: seq<byte>, tag: byte, s: seq<byte>, pos: nat) returns (p: nat)
    requires |key| <= 255 && At(s, pos, EncodeShortStr(key).value + [tag])
    ensures p == pos + |key| + 1 && ParseShortStr(s, pos) == Ok((key, p)) && At(s, p, [tag])
  {
    AtSplit(s, pos, EncodeShortStr(key).value, [tag]);
    ShortStrRoundTrip(key, s, pos);
    p := pos + |key| + 1;
  }

  /** An entry tagged 'S' holds the long string that follows the tag. */
  lemma EntryLongStr(s: seq<byte>, pos: nat, key: seq<byte>, p: nat, v: (seq<byte>, nat))
    requires pos <= |s| && ParseShortStr(s, pos) == Ok((key, p)) && At(s, p, [TagLongStr]) && ParseLongStr(s, p + 1) == Ok(v)
    ensures ParseEntry(s, pos) == Ok((Field(key, LongStr(v.0)), v.1))
  {
  }

  /** An entry tagged 'F' holds the table that follows the tag. */
  lemma EntryTable(s: seq<byte>, pos: nat, key: seq<byte>, p: nat, v: (seq<Field>, nat))
    requires pos <= |s| && ParseShortStr(s, pos) == Ok((key, p)) && At(s, p, [TagTable]) && ParseTable(s, p + 1) == Ok(v)
    ensures ParseEntry(s, pos) == Ok((Field(key, Table(v.0)), v.1))
  {
  }

  /** The loop of read_table, started on the encoding of some entries whose
      keys are new to the dictionary built so far, appends exactly them. */
  lemma {:induction false} FieldsRoundTrip(region: seq<byte>, pos: nat, suffix: seq<Field>, acc: seq<Field>)
    requires EncodeFields(suffix).Ok? && At(region, pos, EncodeFields(suffix).value)
    requires pos + |EncodeFields(suffix).value| == |region|
    requires UniqueKeys(suffix) && Keys(acc) !! Keys(suffix)
    ensures ParseFields(region, pos, |region|, acc) == Ok(acc + suffix)
    decreases suffix, 1
  {
    if suffix == [] {
      assert acc + suffix == acc;
    } else {
      var f, tail := suffix[0], suffix[1..];
      UniqueTail(suffix);
      FreshKeys(acc, suffix);
      var next := FieldsHead(region, pos, suffix);
      FreshStep(region, pos, acc, f, next);
      FieldsRoundTrip(region, next, tail, acc + [f]);
      FieldsJoin(region, pos, next, acc, f, tail);
      assert suffix == [f] + tail;
    }
  }

  /** The first entry of the encoding is read as itself, and the rest of
      the entries follow it. */
  lemma FieldsHead(region: seq<byte>, pos: nat, suffix: seq<Field>) returns (next: nat)
    requires suffix != [] && EncodeFields(suffix).Ok? && At(region, pos, EncodeFields(suffix).value)
    requires pos + |EncodeFields(suffix).value| == |region|
    requires UniqueKeysIn(suffix[0].value)
    ensures EncodeFields(suffix[1..]).Ok? && At(region, next, EncodeFields(suffix[1..]).value)
    ensures next + |EncodeFields(suffix[1..]).value| == |region|
    ensures pos < |region| && ParseEntry(region, pos) == Ok((suffix[0], next))
    decreases suffix, 0
  {
    var f, tail := suffix[0], suffix[1..];
    EncodeFieldsCons(suffix);
    var h, t := EncodeField(f).value, EncodeFields(tail).value;
    next := pos + |h|;
    AtSplit(region, pos, h, t);
    EntryRoundTrip(f, region, pos);
  }

  /** An entry whose key is new is appended to what was read so far. */
  lemma FreshStep(region: seq<byte>, pos: nat, acc: seq<Field>, f: Field, next: nat)
    requires pos < |region| && ParseEntry(region, pos) == Ok((f, next)) && f.key !in Keys(acc)
    ensures next <= |region|
    ensures ParseFields(region, pos, |region|, acc) == ParseFields(region, next, |region|, acc + [f])
  {
    var e := ParseEntry(region, pos);
    ParseFieldsStep(region, pos, |region|, acc, e);
    var grown := Put(acc, e.value.0.key, e.value.0.value);
    assert grown == acc + [f] by {
      PutFresh(acc, f.key, f.value);
    }
  }

  /** Keys new to acc stay new to acc and its first entry. */
  lemma FreshKeys(acc: seq<Field>, suffix: seq<Field>)
    requires suffix != [] && Keys(acc) !! Keys(suffix) && suffix[0].key !in Keys(suffix[1..])
    ensures suffix[0].key !in Keys(acc)
    ensures Keys(acc + [suffix[0]]) !! Keys(suffix[1..])
  {
    KeysCons(suffix[0], suffix[1..]);
    assert suffix == [suffix[0]] + suffix[1..];
    KeysSnoc(acc, suffix[0]);
  }

  lemma FieldsJoin(region: seq<byte>, pos: nat, next: nat, acc: seq<Field>, f: Field, tail: seq<Field>)
    requires pos <= |region| && next <= |region|
    requires ParseFields(region, pos, |region|, acc) == ParseFields(region, next, |region|, acc + [f])
    requires ParseFields(region, next, |region|, acc + [f]) == Ok((acc + [f]) + tail)
    ensures ParseFields(region, pos, |region|, acc) == Ok(acc + ([f] + tail))
  {
    assert (acc + [f]) + tail == acc + ([f] + tail);
  }

  lemma EncodeFieldsCons(fs: seq<Field>)
    requires fs != [] && EncodeFields(fs).Ok?
    ensures EncodeField(fs[0]).Ok? && EncodeFields(fs[1..]).Ok?
    ensures EncodeFields(fs).value == EncodeField(fs[0]).value + EncodeFields(fs[1..]).value
  {
  }

  /** The entries after the first of a uniquely keyed list are uniquely
      keyed, and none of them repeats the first key. */
  lemma UniqueTail(fs: seq<Field>)
    requires fs != [] && UniqueKeys(fs)
    ensures UniqueKeys(fs[1..]) && UniqueKeysIn(fs[0].value) && fs[0].key !in Keys(fs[1..])
  {
    var tail := fs[1..];
    forall i, j | 0 <= i < j < |tail| ensures tail[i].key != tail[j].key {
      assert tail[i] == fs[i + 1] && tail[j] == fs[j + 1];
    }
    forall i | 0 <= i < |tail| ensures UniqueKeysIn(tail[i].value) {
      assert tail[i] == fs[i + 1];
    }
    forall j | 0 <= j < |tail| ensures tail[j].key != fs[0].key {
      assert tail[j] == fs[j + 1];
    }
  }

  // ---------------------------------------------------------------------
  // Boolean fields

  function Pow2(i: nat): (r: nat)
    ensures r >= 1
  {
    if i == 0 then 1 else 2 * Pow2(i - 1)
  }

  lemma {:induction false} Pow2AtMost8(k: nat)
    requires k <= 8
    ensures Pow2(k) <= 0x100
    decreases 8 - k
  {
    if k < 8 {
      Pow2AtMost8(k + 1);
    }
  }

  /** Python's | on non-negative integers, one binary digit at a time. */
  function BitOr(x: nat, y: nat): nat
    decreases x + y
  {
    if x == 0 && y == 0 then 0
    else (if x % 2 == 1 || y % 2 == 1 then 1 else 0) + 2 * BitOr(x / 2, y / 2)
  }

  /** Or-ing in a bit above every bit set in x adds its weight; or-ing in 0
      changes nothing. This is what write_boolean's |= does. */
  lemma {:induction false} BitOrFreshBit(x: nat, k: nat, b: bool)
    requires x < Pow2(k)
    ensures BitOr(x, (if b then 1 else 0) * Pow2(k)) == x + (if b then Pow2(k) else 0)
    decreases k
  {
    if b {
      if k > 0 {
        BitOrFreshBit(x / 2, k - 1, b);
      }
    } else {
      BitOrZero(x);
    }
  }

  lemma {:induction false} BitOrZero(x: nat)
    ensures BitOr(x, 0) == x
    decreases x
  {
    if x > 0 {
      BitOrZero(x / 2);
    }
  }

  /** The value of bit i of x. */
  function Bit(x: nat, i: nat): bool
  {
    (x / Pow2(i)) % 2 == 1
  }

  /** Up to 8 booleans in one byte, the first in the least significant bit. */
  function PackByte(bs: seq<bool>): (r: nat)
    requires |bs| <= 8
    ensures r < Pow2(|bs|)
  {
    if bs == [] then 0 else (if bs[0] then 1 else 0) + 2 * PackByte(bs[1..])
  }

  /** Booleans 8j .. 8j+7 of bs (fewer in the last group). */
  function Group(bs: seq<bool>, j: nat): (g: seq<bool>)
    requires 8 * j < |bs|
    ensures 0 < |g| <= 8
  {
    bs[8 * j..Min(8 * j + 8, |bs|)]
  }

  /** The bytes write_boolean accumulates for the booleans bs: 8 to a byte,
      a new byte started after every 8. */
  function PackBits(bs: seq<bool>): (r: seq<byte>)
    ensures |r| == (|bs| + 7) / 8
  {
    seq((|bs| + 7) / 8, j requires 0 <= j < (|bs| + 7) / 8 => PackGroup(bs, j))
  }

  function PackGroup(bs: seq<bool>, j: nat): byte
    requires 8 * j < |bs|
  {
    Pow2AtMost8(|Group(bs, j)|);
    PackByte(Group(bs, j))
  }

  lemma {:induction false} PackByteBit(bs: seq<bool>, i: nat)
    requires |bs| <= 8 && i < 8
    ensures Bit(PackByte(bs), i) == (i < |bs| && bs[i])
  {
    var x := PackByte(bs);
    if i == 0 {
      assert Bit(x, 0) == (x % 2 == 1);
    } else {
      DivDiv(x, 2, Pow2(i - 1));
      assert Bit(x, i) == Bit(x / 2, i - 1);
      if bs == [] {
        assert x == 0;
      } else {
        assert x / 2 == PackByte(bs[1..]);
        PackByteBit(bs[1..], i - 1);
      }
    }
  }

  /** Bit layout: boolean i sits at bit i mod 8 of byte i div 8, and every
      bit past the last boolean is zero. */
  lemma PackBitsLayout(bs: seq<bool>, i: nat)
    requires i < 8 * |PackBits(bs)|
    ensures Bit(PackBits(bs)[i / 8], i % 8) == (i < |bs| && bs[i])
  {
    var j := i / 8;
    PackByteBit(Group(bs, j), i % 8);
  }

  lemma {:induction false} PackByteSnoc(bs: seq<bool>, b: bool)
    requires |bs| < 8
    ensures PackByte(bs + [b]) == PackByte(bs) + (if b then Pow2(|bs|) else 0)
  {
    if bs != [] {
      assert (bs + [b])[1..] == bs[1..] + [b];
      PackByteSnoc(bs[1..], b);
    }
  }

  /** One more boolean starts a new byte when the count so far is a multiple
      of 8, and otherwise goes into the last byte at bit count mod 8, which
      is still clear. */
  lemma PackBitsSnoc(bs: seq<bool>, b: bool)
    ensures |bs| % 8 == 0 ==> PackBits(bs + [b]) == PackBits(bs) + [if b then 1 else 0]
    ensures |bs| % 8 != 0 ==>
      && LastFree(PackBits(bs), |bs| % 8)
      && AddedToLast(PackBits(bs + [b]), PackBits(bs), if b then Pow2(|bs| % 8) else 0)
  {
    PackBitsFullGroups(bs, b);
    if |bs| % 8 == 0 {
      PackBitsSnocNewByte(bs, b);
    } else {
      PackBitsSnocSameByte(bs, b);
    }
  }

  lemma PackBitsSnocNewByte(bs: seq<bool>, b: bool)
    requires |bs| % 8 == 0
    requires forall j | 0 <= j < |bs| / 8 :: j < |PackBits(bs)| && j < |PackBits(bs + [b])| && PackBits(bs + [b])[j] == PackBits(bs)[j]
    ensures PackBits(bs + [b]) == PackBits(bs) + [if b then 1 else 0]
  {
    var p, q := PackBits(bs), PackBits(bs + [b]);
    var n := |p|;
    assert |q| == n + 1 && n == |bs| / 8;
    assert Group(bs + [b], n) == [b];
    assert q[n] == if b then 1 else 0;
  }

  lemma PackBitsSnocSameByte(bs: seq<bool>, b: bool)
    requires |bs| % 8 != 0
    requires forall j | 0 <= j < |bs| / 8 :: j < |PackBits(bs)| && j < |PackBits(bs + [b])| && PackBits(bs + [b])[j] == PackBits(bs)[j]
    ensures LastFree(PackBits(bs), |bs| % 8)
    ensures AddedToLast(PackBits(bs + [b]), PackBits(bs), if b then Pow2(|bs| % 8) else 0)
  {
    var p, q := PackBits(bs), PackBits(bs + [b]);
    var n := |p|;
    assert |q| == n && n - 1 == |bs| / 8;
    var last := Group(bs, n - 1);
    assert |last| == |bs| % 8;
    assert Group(bs + [b], n - 1) == last + [b];
    PackByteSnoc(last, b);
    assert q[..n - 1] == p[..n - 1];
  }

  /** write_boolean's step: with a zero byte appended when the count is a
      multiple of 8, the last byte has bit count mod 8 still clear, and
      adding the new boolean's weight to it gives the packing of one more
      boolean. */
  lemma PackBitsPush(bs: seq<bool>, b: bool)
    ensures var p := if |bs| % 8 == 0 then PackBits(bs) + [0] else PackBits(bs);
      && LastFree(p, |bs| % 8)
      && PackBits(bs + [b]) == p[|p| - 1 := p[|p| - 1] + (if b then Pow2(|bs| % 8) else 0)]
  {
    PackBitsSnoc(bs, b);
    if |bs| % 8 == 0 {
      PushNewByte(PackBits(bs), PackBits(bs + [b]), b);
    } else {
      PushSameByte(PackBits(bs), PackBits(bs + [b]), if b then Pow2(|bs| % 8) else 0);
    }
  }

  lemma PushNewByte(p: seq<byte>, q: seq<byte>, b: bool)
    requires q == p + [if b then 1 else 0]
    ensures var p' := p + [0];
      && LastFree(p', 0)
      && q == p'[|p'| - 1 := p'[|p'| - 1] + (if b then Pow2(0) else 0)]
  {
  }

  lemma PushSameByte(p: seq<byte>, q: seq<byte>, d: nat)
    requires AddedToLast(q, p, d)
    ensures q == p[|p| - 1 := p[|p| - 1] + d]
  {
    var n := |p|;
    forall i | 0 <= i < n ensures q[i] == p[n - 1 := p[n - 1] + d][i] {
      if i < n - 1 {
        assert q[..n - 1][i] == q[i] && p[..n - 1][i] == p[i];
      }
    }
  }

  /** The complete groups of 8 are not touched by one more boolean. */
  lemma PackBitsFullGroups(bs: seq<bool>, b: bool)
    ensures var p, q := PackBits(bs), PackBits(bs + [b]);
      forall j | 0 <= j < |bs| / 8 :: j < |p| && j < |q| && q[j] == p[j]
  {
    var p, q := PackBits(bs), PackBits(bs + [b]);
    forall j | 0 <= j < |bs| / 8 ensures j < |p| && j < |q| && q[j] == p[j] {
      assert Group(bs + [b], j) == Group(bs, j);
    }
  }

  /** write_boolean on the packed bytes: a zero byte is started when bit 0
      is next, and b is or-ed into bit |bs| mod 8 of the last byte. */
  lemma PackBitsOr(bs: seq<bool>, b: bool)
    ensures var p := if |bs| % 8 == 0 then PackBits(bs) + [0] else PackBits(bs);
      && |p| > 0 && |PackBits(bs + [b])| == |p|
      && PackBits(bs + [b])[|p| - 1] == BitOr(p[|p| - 1], (if b then 1 else 0) * Pow2(|bs| % 8))
      && PackBits(bs + [b]) == p[|p| - 1 := BitOr(p[|p| - 1], (if b then 1 else 0) * Pow2(|bs| % 8))]
  {
    PackBitsPush(bs, b);
    var p := if |bs| % 8 == 0 then PackBits(bs) + [0] else PackBits(bs);
    BitOrFreshBit(p[|p| - 1], |bs| % 8, b);
  }

  /** The last byte has no bit at or above position shift set. */
  predicate LastFree(p: seq<byte>, shift: nat)
  {
    |p| > 0 && p[|p| - 1] < Pow2(shift)
  }

  /** q is p with d added to its last byte. */
  predicate AddedToLast(q: seq<byte>, p: seq<byte>, d: nat)
  {
    && |q| == |p| > 0
    && q[..|p| - 1] == p[..|p| - 1]
    && q[|p| - 1] == p[|p| - 1] + d
  }
}
