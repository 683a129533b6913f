/** The AMQP general frame format (type octet, channel short, payload size
    long, payload, frame-end octet 0xCE), method frames, the content header
    frame, and the slicing of a content body into body frames. */
module Framing {
  import opened Wire
  import opened Fields

  const FrameMethod: byte := 1
  const FrameHeader: byte := 2
  const FrameBody: byte := 3
  const FrameEnd: byte := 0xCE

  datatype Frame = Frame(kind: byte, channel: u16, payload: seq<byte>)

  /** One frame on the wire: type, channel, payload size, payload, 0xCE. */
  function EncodeFrame(f: Frame): (r: seq<byte>)
    requires |f.payload| < 0x1_0000_0000
    ensures |r| == |f.payload| + 8 && r[0] == f.kind && r[|r| - 1] == FrameEnd
  {
    [f.kind] + U16(f.channel) + U32(|f.payload|) + f.payload + [FrameEnd]
  }

  function DecodeU16(s: seq<byte>): u16
    requires |s| == 2
  {
    Pow256Widths();
    DecodeUInt(s)
  }

  /** wait's reads from position pos: the type octet, the channel short and
      the size long, then at most size payload bytes (fewer at the end of
      the input), then the frame-end octet, which must be 0xCE. */
  function ParseFrame(s: seq<byte>, pos: nat): (r: Result<(Frame, nat)>)
    requires pos <= |s|
    ensures r.Ok? ==> r.value.1 == pos + 8 + |r.value.0.payload| <= |s|
    ensures r.Ok? ==> r.value.1 == FrameAfter(s, pos)
  {
    Pow256Widths();
    var kind :- ParseUInt(s, pos, 1);
    var channel :- ParseUInt(s, kind.1, 2);
    var size :- ParseUInt(s, channel.1, 4);
    var payload := Slice(s, size.1, size.0);
    var end :- ParseUInt(s, size.1 + |payload|, 1);
    if end.0 != FrameEnd then Err(FramingError(end.0))
    else Ok((Frame(kind.0, channel.0, payload), end.1))
  }

  /** Where wait leaves the input, whether the frame is good or not. */
  function FrameAfter(s: seq<byte>, pos: nat): (r: nat)
    requires pos <= |s|
    ensures pos <= r <= |s|
  {
    if pos + 7 > |s| then |s| else Min(pos + 8 + DecodeUInt(s[pos + 3..pos + 7]), |s|)
  }

  /** A frame reads back as itself, ending 8 + size bytes further on. */
  lemma FrameRoundTrip(f: Frame, s: seq<byte>, pos: nat)
    requires |f.payload| < 0x1_0000_0000 && At(s, pos, EncodeFrame(f))
    ensures |EncodeFrame(f)| == |f.payload| + 8
    ensures ParseFrame(s, pos) == Ok((f, pos + |f.payload| + 8))
    ensures FrameAfter(s, pos) == pos + |f.payload| + 8
  {
    var n := |f.payload|;
    var head := [f.kind] + U16(f.channel) + U32(n);
    assert EncodeFrame(f) == head + (f.payload + [FrameEnd]);
    AtSplit(s, pos, head, f.payload + [FrameEnd]);
    AtSplit(s, pos + 7, f.payload, [FrameEnd]);
    FrameHeaderFields(f, s, pos);
    OctetRoundTrip(s, pos + 7 + n, FrameEnd);
  }

  /** The 7 header bytes of a frame read back as its type, channel and size. */
  lemma FrameHeaderFields(f: Frame, s: seq<byte>, pos: nat)
    requires |f.payload| < 0x1_0000_0000 && At(s, pos, [f.kind] + U16(f.channel) + U32(|f.payload|))
    ensures ParseUInt(s, pos, 1) == Ok((f.kind, pos + 1))
    ensures ParseUInt(s, pos + 1, 2) == Ok((f.channel as nat, pos + 3))
    ensures ParseUInt(s, pos + 3, 4) == Ok((|f.payload|, pos + 7))
    ensures DecodeUInt(s[pos + 3..pos + 7]) == |f.payload|
  {
    Pow256Widths();
    AtSplit(s, pos, [f.kind] + U16(f.channel), U32(|f.payload|));
    AtSplit(s, pos, [f.kind], U16(f.channel));
    OctetRoundTrip(s, pos, f.kind);
    UIntRoundTrip(s, pos + 1, f.channel, 2);
    UIntRoundTrip(s, pos + 3, |f.payload|, 4);
  }

  /** One byte at pos reads back as itself with read_octet. */
  lemma OctetRoundTrip(s: seq<byte>, pos: nat, b: byte)
    requires At(s, pos, [b])
    ensures ParseUInt(s, pos, 1) == Ok((b as nat, pos + 1))
  {
    Pow256Widths();
    assert EncodeUInt(b, 1) == [b];
    UIntRoundTrip(s, pos, b, 1);
  }

  /** A frame whose byte after the payload is not 0xCE is refused with that
      byte, after consuming it. */
  lemma FramingErrorDetected(f: Frame, b: byte, s: seq<byte>, pos: nat)
    requires |f.payload| < 0x1_0000_0000 && b != FrameEnd
    requires At(s, pos, [f.kind] + U16(f.channel) + U32(|f.payload|) + f.payload + [b])
    ensures ParseFrame(s, pos) == Err(FramingError(b))
    ensures FrameAfter(s, pos) == pos + |f.payload| + 8
  {
    var n := |f.payload|;
    var head := [f.kind] + U16(f.channel) + U32(n);
    assert head + f.payload + [b] == head + (f.payload + [b]);
    AtSplit(s, pos, head, f.payload + [b]);
    AtSplit(s, pos + 7, f.payload, [b]);
    FrameHeaderFields(f, s, pos);
    OctetRoundTrip(s, pos + 7 + n, b);
  }

  // ---------------------------------------------------------------------
  // Method frames

  /** send_method_frame: a type-1 frame whose payload is the class id, the
      method id and the packed arguments; the size field is len(args) + 4. */
  function MethodFrame(channel: u16, classId: u16, methodId: u16, args: seq<byte>): (r: Result<seq<byte>>)
    ensures r.Ok? <==> |args| + 4 < 0x1_0000_0000
    ensures r.Ok? ==> |r.value| == |args| + 12 && r.value[0] == FrameMethod
  {
    if |args| + 4 >= 0x1_0000_0000 then Err(OutOfRange)
    else Ok(EncodeFrame(Frame(FrameMethod, channel, U16(classId) + U16(methodId) + args)))
  }

  /** The method frame's bytes, field by field: len(args) + 12 in all. */
  lemma MethodFrameLayout(channel: u16, classId: u16, methodId: u16, args: seq<byte>)
    requires |args| + 4 < 0x1_0000_0000
    ensures var r := MethodFrame(channel, classId, methodId, args);
      && r.Ok? && |r.value| == |args| + 12
      && r.value[0] == FrameMethod
      && r.value[1..3] == U16(channel)
      && r.value[3..7] == U32(|args| + 4)
      && r.value[7..9] == U16(classId)
      && r.value[9..11] == U16(methodId)
      && r.value[11..|args| + 11] == args
      && r.value[|args| + 11] == FrameEnd
  {
    var r := MethodFrame(channel, classId, methodId, args).value;
    assert r == [FrameMethod] + U16(channel) + U32(|args| + 4) + U16(classId) + U16(methodId) + args + [FrameEnd];
  }

  /** dispatch_method's split of a method payload: class id, method id and
      the arguments; a payload shorter than 4 bytes is refused. */
  function ParseMethod(payload: seq<byte>): (r: Result<(u16, u16, seq<byte>)>)
    ensures r.Ok? <==> |payload| >= 4
    ensures r.Ok? ==> U16(r.value.0) + U16(r.value.1) + r.value.2 == payload
  {
    if |payload| < 4 then Err(MethodFrameTooShort)
    else
      EncodeDecode(payload[..2]);
      EncodeDecode(payload[2..4]);
      assert payload == payload[..2] + payload[2..4] + payload[4..];
      Ok((DecodeU16(payload[..2]), DecodeU16(payload[2..4]), payload[4..]))
  }

  /** A method frame sent by send_method_frame is read by wait and split by
      dispatch_method back into its channel, class, method and arguments. */
  lemma MethodFrameRoundTrip(channel: u16, classId: u16, methodId: u16, args: seq<byte>, s: seq<byte>, pos: nat)
    requires |args| + 4 < 0x1_0000_0000
    requires MethodFrame(channel, classId, methodId, args).Ok?
    requires At(s, pos, MethodFrame(channel, classId, methodId, args).value)
    ensures ParseFrame(s, pos) == Ok((Frame(FrameMethod, channel, U16(classId) + U16(methodId) + args), pos + |args| + 12))
    ensures ParseMethod(U16(classId) + U16(methodId) + args) == Ok((classId, methodId, args))
  {
    var payload := U16(classId) + U16(methodId) + args;
    FrameRoundTrip(Frame(FrameMethod, channel, payload), s, pos);
    MethodPayload(classId, methodId, args);
  }

  /** dispatch_method splits a method payload back into its parts. */
  lemma MethodPayload(classId: u16, methodId: u16, args: seq<byte>)
    ensures ParseMethod(U16(classId) + U16(methodId) + args) == Ok((classId, methodId, args))
  {
    var payload := U16(classId) + U16(methodId) + args;
    Pow256Widths();
    assert payload[..2] == U16(classId) && payload[2..4] == U16(methodId) && payload[4..] == args;
    DecodeEncode(classId, 2);
    DecodeEncode(methodId, 2);
  }

  // ---------------------------------------------------------------------
  // Content

  /** send_content's header frame: type 2, size len(properties) + 12, then
      class id, weight, body size and the packed properties. */
  function HeaderFrame(channel: u16, classId: u16, weight: u16, bodySize: u64, properties: seq<byte>): (r: Result<seq<byte>>)
    ensures r.Ok? <==> |properties| + 12 < 0x1_0000_0000
    ensures r.Ok? ==> |r.value| == |properties| + 20 && r.value[0] == FrameHeader
  {
    if |properties| + 12 >= 0x1_0000_0000 then Err(OutOfRange)
    else Ok(EncodeFrame(Frame(FrameHeader, channel, U16(classId) + U16(weight) + U64(bodySize) + properties)))
  }

  /** The header frame's size field is len(properties) + 12 and its
      payload starts with the class id, weight and body size. */
  lemma HeaderFrameLayout(channel: u16, classId: u16, weight: u16, bodySize: u64, properties: seq<byte>)
    requires |properties| + 12 < 0x1_0000_0000
    ensures var r := HeaderFrame(channel, classId, weight, bodySize, properties);
      && r.Ok? && |r.value| == |properties| + 20
      && r.value[0] == FrameHeader
      && r.value[1..3] == U16(channel)
      && r.value[3..7] == U32(|properties| + 12)
      && r.value[7..9] == U16(classId)
      && r.value[9..11] == U16(weight)
      && r.value[11..19] == U64(bodySize)
      && r.value[19..|properties| + 19] == properties
      && r.value[|properties| + 19] == FrameEnd
  {
    var r := HeaderFrame(channel, classId, weight, bodySize, properties).value;
    assert r == [FrameHeader] + U16(channel) + U32(|properties| + 12) + U16(classId) + U16(weight) + U64(bodySize) + properties + [FrameEnd];
  }

  /** The payloads send_content's loop cuts from body, body[:k] and then
      the rest, while body is not empty. */
  function Chunks(body: seq<byte>, k: nat): (r: seq<seq<byte>>)
    requires k >= 1
    decreases |body|
    ensures r == [] <==> body == []
    ensures forall i | 0 <= i < |r| :: 0 < |r[i]| <= k
  {
    if body == [] then []
    else [body[..Min(k, |body|)]] + Chunks(body[Min(k, |body|)..], k)
  }

  function Concat(cs: seq<seq<byte>>): seq<byte>
  {
    if cs == [] then [] else cs[0] + Concat(cs[1..])
  }

  /** The chunks put back together are the body. */
  lemma {:induction false} ChunksConcat(body: seq<byte>, k: nat)
    requires k >= 1
    ensures Concat(Chunks(body, k)) == body
    decreases |body|
  {
    if body != [] {
      var m := Min(k, |body|);
      ChunksConcat(body[m..], k);
      assert body == body[..m] + body[m..];
    }
  }

  /** There are ceil(len(body) / k) chunks: none for an empty body. */
  lemma {:induction false} ChunksCount(body: seq<byte>, k: nat)
    requires k >= 1
    ensures |Chunks(body, k)| == Ceil(|body|, k)
    decreases |body|
  {
    if body == [] {
      CeilZero(k);
    } else if |body| <= k {
      assert Chunks(body[|body|..], k) == [];
      CeilOne(|body|, k);
    } else {
      assert Min(k, |body|) == k;
      ChunksCount(body[k..], k);
      CeilStep(|body|, k);
    }
  }

  /** ceil(n / k) for k >= 1. */
  function Ceil(n: nat, k: nat): nat
    requires k >= 1
  {
    (n + k - 1) / k
  }

  lemma CeilZero(k: nat)
    requires k >= 1
    ensures Ceil(0, k) == 0
  {
    DivUnique(k - 1, k, 0, k - 1);
  }

  lemma CeilOne(n: nat, k: nat)
    requires 1 <= n <= k
    ensures Ceil(n, k) == 1
  {
    DivUnique(n + k - 1, k, 1, n - 1);
  }

  lemma CeilStep(n: nat, k: nat)
    requires 1 <= k < n
    ensures Ceil(n, k) == Ceil(n - k, k) + 1
  {
    var x := n + k - 1;
    var q, r := (x - k) / k, (x - k) % k;
    assert x - k == k * q + r;
    assert x == k * (q + 1) + r;
    DivUnique(x, k, q + 1, r);
  }

  /** Every chunk but the last holds exactly k bytes (Chunks itself says
      each holds between 1 and k). */
  lemma {:induction false} ChunksSizes(body: seq<byte>, k: nat)
    requires k >= 1
    ensures forall i | 0 <= i < |Chunks(body, k)| - 1 :: |Chunks(body, k)[i]| == k
    decreases |body|
  {
    if body != [] {
      var m := Min(k, |body|);
      ChunksSizes(body[m..], k);
      var cs := Chunks(body, k);
      assert cs[1..] == Chunks(body[m..], k);
      forall i | 0 <= i < |cs| - 1 ensures |cs[i]| == k {
        if i > 0 { assert cs[i] == cs[1..][i - 1]; } else { assert |body[m..]| > 0; }
      }
    }
  }

  /** The body frames send_content writes for the given payloads. */
  function BodyFrames(channel: u16, cs: seq<seq<byte>>): (r: seq<byte>)
    requires forall i | 0 <= i < |cs| :: |cs[i]| < 0x1_0000_0000
    ensures |r| == |Concat(cs)| + 8 * |cs|
  {
    if cs == [] then [] else EncodeFrame(Frame(FrameBody, channel, cs[0])) + BodyFrames(channel, cs[1..])
  }
}
