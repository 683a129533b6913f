/** What the connection and channel state machines promise: how an inbound
    frame is read and routed, what tune, open_ok and _close_ok do, the
    channel lifecycle, the layout of the requests' arguments, content
    segmentation, and the turns of the opening handshake. */
module Properties {
  import opened Wire
  import opened Fields
  import opened Framing
  import opened Protocol

  // ---------------------------------------------------------------------
  // Receiving

  /** A method frame at the read position is consumed whole, and its class,
      method and arguments are routed for the channel it names. */
  lemma WaitReadsMethod(st: ConnState, channel: u16, classId: u16, methodId: u16, args: seq<byte>)
    requires Wf(st) && st.input.Some? && |args| + 4 < 0x1_0000_0000
    requires At(st.input.value.data, st.input.value.pos, MethodFrame(channel, classId, methodId, args).value)
    ensures Wait(st) == Route(MoveTo(st, st.input.value.pos + |args| + 12), channel, classId, methodId, args)
  {
    MethodFrameNext(st, channel, classId, methodId, args);
    WaitRoutes(st, channel, classId, methodId, args);
  }

  /** The bytes of a method frame at the read position parse back to it. */
  lemma MethodFrameNext(st: ConnState, channel: u16, classId: u16, methodId: u16, args: seq<byte>)
    requires Wf(st) && st.input.Some? && |args| + 4 < 0x1_0000_0000
    requires At(st.input.value.data, st.input.value.pos, MethodFrame(channel, classId, methodId, args).value)
    ensures MethodNext(st.input.value, channel, classId, methodId, args)
  {
    MethodFrameRoundTrip(channel, classId, methodId, args, st.input.value.data, st.input.value.pos);
  }

  /** The frame at cursor c parses as a method frame for channel, carrying
      classId, methodId and args. */
  predicate MethodNext(c: Cursor, channel: u16, classId: u16, methodId: u16, args: seq<byte>)
    requires c.pos <= |c.data|
  {
    ParseFrame(c.data, c.pos) == Ok((Frame(FrameMethod, channel, U16(classId) + U16(methodId) + args), c.pos + |args| + 12))
  }

  /** A method frame that parses is routed by its class and method ids. */
  lemma WaitRoutes(st: ConnState, channel: u16, classId: u16, methodId: u16, args: seq<byte>)
    requires Wf(st) && st.input.Some? && MethodNext(st.input.value, channel, classId, methodId, args)
    ensures Wait(st) == Route(MoveTo(st, st.input.value.pos + |args| + 12), channel, classId, methodId, args)
  {
    var next := st.input.value.pos + |args| + 12;
    WaitParsed(st, Frame(FrameMethod, channel, U16(classId) + U16(methodId) + args), next);
    DispatchSplit(MoveTo(st, next), channel, classId, methodId, args);
  }

  /** wait hands a good method frame to dispatch_method. */
  lemma WaitParsed(st: ConnState, f: Frame, next: nat)
    requires Wf(st) && st.input.Some? && f.kind == FrameMethod
    requires ParseFrame(st.input.value.data, st.input.value.pos) == Ok((f, next))
    ensures Wait(st) == DispatchMethod(MoveTo(st, next), f.channel, f.payload)
  {
  }

  /** dispatch_method routes a payload by its class and method ids. */
  lemma DispatchSplit(st: ConnState, channel: u16, classId: u16, methodId: u16, args: seq<byte>)
    ensures DispatchMethod(st, channel, U16(classId) + U16(methodId) + args) == Route(st, channel, classId, methodId, args)
  {
    MethodPayload(classId, methodId, args);
  }

  /** A frame of any other type is consumed and dropped. */
  lemma WaitSkipsOtherFrames(st: ConnState, f: Frame)
    requires Wf(st) && st.input.Some? && |f.payload| < 0x1_0000_0000 && f.kind != FrameMethod
    requires At(st.input.value.data, st.input.value.pos, EncodeFrame(f))
    ensures Wait(st) == Step(MoveTo(st, st.input.value.pos + |f.payload| + 8), Ok(NoReply))
  {
    FrameRoundTrip(f, st.input.value.data, st.input.value.pos);
  }

  /** A frame not closed by 0xCE raises a framing error naming the byte found
      there, after reading it; nothing else changes. */
  lemma WaitFramingError(st: ConnState, f: Frame, b: byte)
    requires Wf(st) && st.input.Some? && |f.payload| < 0x1_0000_0000 && b != FrameEnd
    requires At(st.input.value.data, st.input.value.pos, [f.kind] + U16(f.channel) + U32(|f.payload|) + f.payload + [b])
    ensures Wait(st) == Step(MoveTo(st, st.input.value.pos + |f.payload| + 8), Err(FramingError(b)))
  {
    FramingErrorDetected(f, b, st.input.value.data, st.input.value.pos);
  }

  /** A method payload shorter than 4 bytes is refused. */
  lemma ShortPayloadRefused(st: ConnState, channel: u16, payload: seq<byte>)
    requires |payload| < 4
    ensures DispatchMethod(st, channel, payload) == Step(st, Err(MethodFrameTooShort))
  {
  }

  /** A connection method with an id no handler has changes nothing. */
  lemma UnknownConnectionMethod(st: ConnState, channel: u16, methodId: u16, args: seq<byte>)
    requires methodId !in {10, 30, 41, 60, 61}
    ensures DispatchMethod(st, channel, U16(10) + U16(methodId) + args) == Step(st, Ok(NoReply))
  {
    MethodPayload(10, methodId, args);
  }

  /** A channel or access method no channel handler knows changes nothing. */
  lemma UnknownChannelMethod(st: ConnState, channel: u16, classId: u16, methodId: u16, args: seq<byte>)
    requires channel in st.channels && (classId == 20 || classId == 30)
    requires !(classId == 20 && methodId in {11, 41}) && !(classId == 30 && methodId == 11)
    ensures DispatchMethod(st, channel, U16(classId) + U16(methodId) + args) == Step(st, Ok(NoReply))
  {
    MethodPayload(classId, methodId, args);
  }

  /** A method of any class other than 10, 20 and 30 changes nothing. */
  lemma OtherClassIgnored(st: ConnState, channel: u16, classId: u16, methodId: u16, args: seq<byte>)
    requires classId !in {10, 20, 30}
    ensures DispatchMethod(st, channel, U16(classId) + U16(methodId) + args) == Step(st, Ok(NoReply))
  {
    MethodPayload(classId, methodId, args);
  }

  /** A channel or access method for a channel that is not registered
      raises. */
  lemma UnregisteredChannel(st: ConnState, channel: u16, classId: u16, methodId: u16, args: seq<byte>)
    requires channel !in st.channels && (classId == 20 || classId == 30)
    ensures DispatchMethod(st, channel, U16(classId) + U16(methodId) + args) == Step(st, Err(NoSuchChannel(channel)))
  {
    MethodPayload(classId, methodId, args);
  }

  // ---------------------------------------------------------------------
  // Connection handlers

  /** tune stores the server's limits, turns a frame_max of 0 into 131072,
      and answers TuneOk(channel_max, frame_max, 0) then Open('/', '', 0). */
  lemma TuneReplies(st: ConnState, channelMax: u16, frameMax: u32, heartbeat: u16, extra: seq<byte>)
    requires st.input.Some?
    ensures var fm := if frameMax == 0 then DefaultFrameMax else frameMax;
      Tune(st, U16(channelMax) + U32(frameMax) + U16(heartbeat) + extra)
      == Step(st.(channelMax := channelMax, frameMax := fm, heartbeat := heartbeat,
                  out := st.out + MethodFrame(0, 10, 31, U16(channelMax) + U32(fm) + U16(0)).value
                                + MethodFrame(0, 10, 40, [1, 0x2F, 0, 0]).value),
              Ok(NoReply))
  {
    var args := U16(channelMax) + U32(frameMax) + U16(heartbeat) + extra;
    Pow256Widths();
    assert At(args, 0, U16(channelMax));
    assert At(args, 2, U32(frameMax));
    assert At(args, 6, U16(heartbeat));
    UIntRoundTrip(args, 0, channelMax, 2);
    UIntRoundTrip(args, 2, frameMax, 4);
    UIntRoundTrip(args, 6, heartbeat, 2);
    OpenRoot();
  }

  /** The arguments of Open('/') are the short strings '/' and '' and a zero
      insist octet. */
  lemma OpenRoot()
    ensures OpenArgs(Ascii("/"), [], false) == Ok([1, 0x2F, 0, 0])
  {
    var root := Ascii("/");
    assert |root| == 1 && root[0] == 0x2F;
    assert root == [0x2F];
    assert EncodeShortStr(root) == Ok([1] + [0x2F]);
    var none: seq<byte> := [];
    assert EncodeShortStr(none) == Ok([0] + none);
    assert [1] + [0x2F] + ([0] + none) + [0] == [1, 0x2F, 0, 0];
  }

  /** open_ok stores the known hosts and ends the handshake. */
  lemma OpenOkEndsWaiting(st: ConnState, hosts: seq<byte>, extra: seq<byte>)
    requires |hosts| <= 255
    ensures OpenOk(st, [|hosts|] + hosts + extra) == Step(st.(knownHosts := hosts, waiting := false), Ok(NoReply))
  {
    var args := [|hosts|] + hosts + extra;
    assert At(args, 0, EncodeShortStr(hosts).value);
    ShortStrRoundTrip(hosts, args, 0);
  }

  /** After _close_ok there is no transport: every later write or wait
      raises and changes nothing. */
  lemma CloseOkClearsTransport(st: ConnState, bytes: seq<byte>, channel: u16, classId: u16, methodId: u16, args: seq<byte>)
    ensures var closed := ServerCloseOk(st).state;
      && closed.input.None? && ServerCloseOk(st).result == Ok(NoReply)
      && Send(closed, bytes) == Step(closed, Err(NoTransport))
      && Wait(closed) == Step(closed, Err(NoTransport))
      && (|args| + 4 < 0x1_0000_0000 ==> SendMethodFrame(closed, channel, classId, methodId, args) == Step(closed, Err(NoTransport)))
  {
  }

  /** close sends connection.close on channel 0 with the reply code and
      text and the failing class and method, then waits once; a reply text
      over 255 bytes raises before anything is written. */
  lemma CloseSends(st: ConnState, replyCode: u16, replyText: seq<byte>, classId: u16, methodId: u16)
    requires Wf(st) && st.input.Some?
    ensures |replyText| <= 255 ==>
      Close(st, replyCode, replyText, classId, methodId)
      == Discard(Wait(st.(out := st.out + MethodFrame(0, 10, 60, U16(replyCode) + [|replyText|] + replyText + U16(classId) + U16(methodId)).value)))
    ensures |replyText| > 255 ==> Close(st, replyCode, replyText, classId, methodId) == Step(st, Err(StringTooLong))
  {
    if |replyText| <= 255 {
      var args := U16(replyCode) + [|replyText|] + replyText + U16(classId) + U16(methodId);
      assert U16(replyCode) + ([|replyText|] + replyText) + U16(classId) + U16(methodId) == args;
      assert CloseArgs(replyCode, replyText, classId, methodId) == Ok(args);
      SendArgsOk(st, 0, 10, 60, CloseArgs(replyCode, replyText, classId, methodId));
    }
  }

  /** _close reads the server's reply code and text and its class and
      method, then answers with close_ok (channel 0, class 10, method 61, no
      arguments). */
  lemma ServerCloseAnswers(st: ConnState, replyCode: u16, replyText: seq<byte>, classId: u16, methodId: u16, extra: seq<byte>)
    requires st.input.Some? && |replyText| <= 255
    ensures ServerClose(st, U16(replyCode) + [|replyText|] + replyText + U16(classId) + U16(methodId) + extra)
      == Step(st.(out := st.out + MethodFrame(0, 10, 61, []).value), Ok(NoReply))
  {
    var args := U16(replyCode) + [|replyText|] + replyText + U16(classId) + U16(methodId) + extra;
    var p := 2 + 1 + |replyText|;
    Pow256Widths();
    assert At(args, 0, U16(replyCode));
    UIntRoundTrip(args, 0, replyCode, 2);
    assert At(args, 2, EncodeShortStr(replyText).value);
    ShortStrRoundTrip(replyText, args, 2);
    assert At(args, p, U16(classId));
    UIntRoundTrip(args, p, classId, 2);
    assert At(args, p + 2, U16(methodId));
    UIntRoundTrip(args, p + 2, methodId, 2);
  }

  /** _close either answers with close_ok, or raises Truncated (its
      arguments ended early) having written nothing. */
  lemma ServerCloseOutcome(st: ConnState, args: seq<byte>)
    requires st.input.Some?
    ensures ServerClose(st, args) == Step(st.(out := st.out + MethodFrame(0, 10, 61, []).value), Ok(NoReply))
      || ServerClose(st, args) == Step(st, Err(Truncated))
    ensures |args| < 2 ==> ServerClose(st, args) == Step(st, Err(Truncated))
  {
  }

  /** start answers any well-formed start with start_ok, whose arguments are
      the client properties, 'AMQPLAIN', the login entries and 'en_US'. */
  lemma StartAnswers(st: ConnState, args: seq<byte>)
    requires st.input.Some? && ParseStart(args).Ok?
    ensures StartOkArgs(ClientProperties, Ascii("AMQPLAIN"), EncodeFields(LoginTable).value, Ascii("en_US")).Ok?
    ensures Start(st, args) == Step(st.(out := st.out + StartOkFrame()), Ok(NoReply))
  {
    LoginIsEntries();
    StartOkFits();
  }

  /** The start_ok frame the client sends. */
  function StartOkFrame(): (r: seq<byte>)
  {
    var a := StartOkArgs(ClientProperties, Ascii("AMQPLAIN"), EncodeFields(LoginTable).value, Ascii("en_US"));
    if a.Ok? && |a.value| + 4 < 0x1_0000_0000 then MethodFrame(0, 10, 11, a.value).value else []
  }

  lemma StartOkFits()
    ensures EncodeFields(LoginTable).Ok?
    ensures var a := StartOkArgs(ClientProperties, Ascii("AMQPLAIN"), EncodeFields(LoginTable).value, Ascii("en_US"));
      a.Ok? && |a.value| + 4 < 0x1_0000_0000
  {
    LoginIsEntries();
    var product := Field(Ascii("product"), LongStr(Ascii("Python AMQP")));
    var version := Field(Ascii("version"), LongStr(Ascii("0.1")));
    assert |EncodeField(product).value| == 24;
    assert |EncodeField(version).value| == 16;
    assert ClientProperties[1..] == [version];
    assert EncodeFields([version]) == Ok(EncodeField(version).value + []);
    assert |EncodeFields(ClientProperties).value| == 40;
  }

  // ---------------------------------------------------------------------
  // Channels

  /** Channel.open of an open channel writes and reads nothing. */
  lemma ChannelOpenWhenOpen(st: ConnState, id: u16, outOfBand: seq<byte>)
    requires Wf(st) && id in st.channels && st.channels[id]
    ensures ChannelOpen(st, id, outOfBand) == Step(st, Ok(NoReply))
  {
  }

  /** channel(id) registers id when it is new and keeps every registered
      channel; an open registered channel is returned as it is. */
  lemma OpenChannelRegisters(st: ConnState, id: u16)
    requires Wf(st)
    ensures OpenChannel(st, id).state.channels.Keys == st.channels.Keys + {id}
    ensures id in st.channels && st.channels[id] ==> OpenChannel(st, id) == Step(st, Ok(NoReply))
  {
    if id !in st.channels {
      assert st.channels[id := false].Keys == st.channels.Keys + {id};
    } else {
      assert st.channels.Keys + {id} == st.channels.Keys;
    }
  }

  /** Channel.open of a closed channel sends channel.open with the
      out-of-band short string, then waits once. */
  lemma ChannelOpenSends(st: ConnState, id: u16, outOfBand: seq<byte>)
    requires Wf(st) && st.input.Some? && id in st.channels && !st.channels[id] && |outOfBand| <= 255
    ensures ChannelOpen(st, id, outOfBand)
      == Discard(Wait(st.(out := st.out + MethodFrame(id, 20, 10, [|outOfBand|] + outOfBand).value)))
  {
    SendArgsOk(st, id, 20, 10, EncodeShortStr(outOfBand));
  }

  /** A channel.open_ok frame next marks its channel open. */
  lemma ChannelOpenOkExchange(st: ConnState, id: u16, reply: seq<byte>)
    requires Wf(st) && st.input.Some? && id in st.channels
    requires MethodNext(st.input.value, id, 20, 11, reply)
    ensures Wait(st) == Step(MoveTo(st, st.input.value.pos + |reply| + 12).(channels := st.channels[id := true]), Ok(NoReply))
  {
    WaitRoutes(st, id, 20, 11, reply);
    RouteToChannel(MoveTo(st, st.input.value.pos + |reply| + 12), id, 20, 11, reply);
  }

  /** Channel.close sends channel.close with the reply code and text and the
      failing class and method, then waits once. */
  lemma ChannelCloseSends(st: ConnState, id: u16, replyCode: u16, replyText: seq<byte>, classId: u16, methodId: u16)
    requires Wf(st) && st.input.Some? && |replyText| <= 255
    ensures ChannelClose(st, id, replyCode, replyText, classId, methodId)
      == Discard(Wait(st.(out := st.out + MethodFrame(id, 20, 40, U16(replyCode) + [|replyText|] + replyText + U16(classId) + U16(methodId)).value)))
  {
    var args := U16(replyCode) + [|replyText|] + replyText + U16(classId) + U16(methodId);
    assert U16(replyCode) + ([|replyText|] + replyText) + U16(classId) + U16(methodId) == args;
    assert CloseArgs(replyCode, replyText, classId, methodId) == Ok(args);
    SendArgsOk(st, id, 20, 40, CloseArgs(replyCode, replyText, classId, methodId));
  }

  /** A channel.close_ok frame next marks its channel closed. */
  lemma ChannelCloseOkExchange(st: ConnState, id: u16, reply: seq<byte>)
    requires Wf(st) && st.input.Some? && id in st.channels
    requires MethodNext(st.input.value, id, 20, 41, reply)
    ensures Wait(st) == Step(MoveTo(st, st.input.value.pos + |reply| + 12).(channels := st.channels[id := false]), Ok(NoReply))
  {
    WaitRoutes(st, id, 20, 41, reply);
    RouteToChannel(MoveTo(st, st.input.value.pos + |reply| + 12), id, 20, 41, reply);
  }

  /** access_request sends its request, then waits. */
  lemma AccessRequestSends(st: ConnState, id: u16, realm: seq<byte>, exclusive: bool, passive: bool, active: bool, write: bool, read: bool)
    requires Wf(st) && st.input.Some? && |realm| <= 255
    ensures var args := AccessRequestArgs(realm, exclusive, passive, active, write, read);
      && args.Ok?
      && AccessRequest(st, id, realm, exclusive, passive, active, write, read)
         == Wait(st.(out := st.out + MethodFrame(id, 30, 10, args.value).value))
  {
    SendArgsOk(st, id, 30, 10, AccessRequestArgs(realm, exclusive, passive, active, write, read));
  }

  /** Arguments that packed are sent in one method frame. */
  lemma SendArgsOk(st: ConnState, channel: u16, classId: u16, methodId: u16, args: Result<seq<byte>>)
    requires st.input.Some? && args.Ok? && |args.value| + 4 < 0x1_0000_0000
    ensures SendArgs(st, channel, classId, methodId, args)
      == Step(st.(out := st.out + MethodFrame(channel, classId, methodId, args.value).value), Ok(NoReply))
  {
  }

  /** An access_request_ok frame next returns the ticket its arguments
      start with. */
  lemma AccessExchange(st: ConnState, id: u16, reply: seq<byte>, ticket: u16)
    requires Wf(st) && st.input.Some? && id in st.channels
    requires MethodNext(st.input.value, id, 30, 11, reply) && ParseUInt(reply, 0, 2) == Ok((ticket as nat, 2))
    ensures Wait(st) == Step(MoveTo(st, st.input.value.pos + |reply| + 12), Ok(Ticket(ticket)))
  {
    var next := MoveTo(st, st.input.value.pos + |reply| + 12);
    WaitRoutes(st, id, 30, 11, reply);
    RouteToChannel(next, id, 30, 11, reply);
  }

  /** Classes 20 and 30 go to the registered channel the frame names. */
  lemma RouteToChannel(st: ConnState, channel: u16, classId: u16, methodId: u16, args: seq<byte>)
    requires (classId == 20 || classId == 30) && channel in st.channels
    ensures Route(st, channel, classId, methodId, args) == ChannelDispatch(st, channel, classId, methodId, args)
  {
  }

  /** access_request_ok's arguments as the server writes them: the ticket
      reads back. */
  lemma TicketParse(ticket: u16, extra: seq<byte>)
    ensures ParseUInt(U16(ticket) + extra, 0, 2) == Ok((ticket as nat, 2))
  {
    var reply := U16(ticket) + extra;
    assert At(reply, 0, U16(ticket));
    Pow256Widths();
    UIntRoundTrip(reply, 0, ticket, 2);
  }

  function BitValue(b: bool): nat { if b then 1 else 0 }

  /** access_request's arguments: the realm as a short string, then one byte
      with exclusive, passive, active, write and read in bits 0 to 4. */
  lemma AccessRequestLayout(realm: seq<byte>, exclusive: bool, passive: bool, active: bool, write: bool, read: bool)
    requires |realm| <= 255
    ensures AccessRequestArgs(realm, exclusive, passive, active, write, read)
      == Ok([|realm|] + realm + [BitValue(exclusive) + 2 * BitValue(passive) + 4 * BitValue(active) + 8 * BitValue(write) + 16 * BitValue(read)])
  {
    var bs := [exclusive, passive, active, write, read];
    PackFive(exclusive, passive, active, write, read);
    assert [|realm|] + realm + [PackByte(bs)] == ([|realm|] + realm) + [PackByte(bs)];
  }

  /** Five booleans pack into one byte, the first in bit 0. */
  lemma PackFive(b0: bool, b1: bool, b2: bool, b3: bool, b4: bool)
    ensures var bs := [b0, b1, b2, b3, b4];
      PackBits(bs) == [PackByte(bs)]
      && PackByte(bs) == BitValue(b0) + 2 * BitValue(b1) + 4 * BitValue(b2) + 8 * BitValue(b3) + 16 * BitValue(b4)
  {
    var none: seq<bool> := [];
    var s4 := [b4] + none;
    var s3 := [b3] + s4;
    var s2 := [b2] + s3;
    var s1 := [b1] + s2;
    var s0 := [b0] + s1;
    PackByteCons(b4, none);
    PackByteCons(b3, s4);
    PackByteCons(b2, s3);
    PackByteCons(b1, s2);
    PackByteCons(b0, s1);
    assert s0 == [b0, b1, b2, b3, b4];
    PackOneByte(s0);
  }

  /** Up to eight booleans pack into one byte. */
  lemma PackOneByte(bs: seq<bool>)
    requires 0 < |bs| <= 8
    ensures PackBits(bs) == [PackByte(bs)]
  {
    assert Group(bs, 0) == bs;
  }

  /** The first boolean of a group is its byte's bit 0. */
  lemma PackByteCons(b: bool, bs: seq<bool>)
    requires |bs| < 8
    ensures PackByte([b] + bs) == BitValue(b) + 2 * PackByte(bs)
  {
    assert ([b] + bs)[1..] == bs;
  }

  /** basic_publish's arguments: the ticket, the exchange and routing key as
      short strings, then one byte with mandatory and immediate in bits 0
      and 1. */
  lemma BasicPublishLayout(ticket: u16, exchange: seq<byte>, routingKey: seq<byte>, mandatory: bool, immediate: bool)
    requires |exchange| <= 255 && |routingKey| <= 255
    ensures BasicPublishArgs(ticket, exchange, routingKey, mandatory, immediate)
      == Ok(U16(ticket) + [|exchange|] + exchange + [|routingKey|] + routingKey + [BitValue(mandatory) + 2 * BitValue(immediate)])
  {
    var bs := [mandatory, immediate];
    assert Group(bs, 0) == bs;
    assert PackByte(bs[1..]) == BitValue(immediate) by {
      assert bs[1..][1..] == [];
    }
    assert PackByte(bs) == BitValue(mandatory) + 2 * BitValue(immediate);
    assert PackBits(bs) == [PackByte(bs)];
    assert U16(ticket) + ([|exchange|] + exchange) + ([|routingKey|] + routingKey) + [PackByte(bs)]
      == U16(ticket) + [|exchange|] + exchange + [|routingKey|] + routingKey + [PackByte(bs)];
  }

  // ---------------------------------------------------------------------
  // Content

  /** send_content writes the header frame and then one body frame per
      chunk of at most frame_max - 8 bytes: ceil(len(body) / (frame_max - 8))
      frames whose payloads put together are the body. */
  lemma SendContentFrames(st: ConnState, channel: u16, classId: u16, weight: u16, properties: seq<byte>, body: seq<byte>)
    requires st.input.Some? && st.frameMax > 8
    requires |properties| + 12 < 0x1_0000_0000 && |body| < 0x1_0000_0000_0000_0000
    ensures var k := st.frameMax - 8;
      && Concat(Chunks(body, k)) == body
      && |Chunks(body, k)| == Ceil(|body|, k)
      && (forall i | 0 <= i < |Chunks(body, k)| :: 0 < |Chunks(body, k)[i]| <= k)
      && SendContent(st, channel, classId, weight, |body|, properties, body)
         == Step(st.(out := st.out + HeaderFrame(channel, classId, weight, |body|, properties).value
                                    + BodyFrames(channel, Chunks(body, k))),
                 Ok(NoReply))
  {
    var k := st.frameMax - 8;
    ChunksConcat(body, k);
    ChunksCount(body, k);
    ChunksSizes(body, k);
    var s := Send(st, HeaderFrame(channel, classId, weight, |body|, properties).value);
    SendBodyFrames(s.state, channel, body);
    assert s.state.out + BodyFrames(channel, Chunks(body, k))
      == st.out + HeaderFrame(channel, classId, weight, |body|, properties).value + BodyFrames(channel, Chunks(body, k));
  }

  /** send_content's loop writes one body frame per chunk. */
  lemma {:induction false} SendBodyFrames(st: ConnState, channel: u16, body: seq<byte>)
    requires st.input.Some? && st.frameMax > 8
    ensures SendBody(st, channel, body) == Step(st.(out := st.out + BodyFrames(channel, Chunks(body, st.frameMax - 8))), Ok(NoReply))
    decreases |body|
  {
    var k := st.frameMax - 8;
    if body != [] {
      var n := Min(k, |body|);
      var frame := EncodeFrame(Frame(FrameBody, channel, body[..n]));
      var st' := st.(out := st.out + frame);
      var rest := BodyFrames(channel, Chunks(body[n..], k));
      calc {
        SendBody(st, channel, body);
      == { SendBodyUnfold(st, channel, body); }
        SendBody(st', channel, body[n..]);
      == { SendBodyFrames(st', channel, body[n..]); }
        Step(st'.(out := st'.out + rest), Ok(NoReply));
      == { assert st'.out + rest == st.out + (frame + rest); }
        Step(st.(out := st.out + (frame + rest)), Ok(NoReply));
      == { BodyFramesUnfold(channel, body, k); }
        Step(st.(out := st.out + BodyFrames(channel, Chunks(body, k))), Ok(NoReply));
      }
    }
  }

  /** One pass of send_content's loop with a transport. */
  lemma SendBodyUnfold(st: ConnState, channel: u16, body: seq<byte>)
    requires st.input.Some? && st.frameMax > 8 && body != []
    ensures var n := Min(st.frameMax - 8, |body|);
      SendBody(st, channel, body)
      == SendBody(st.(out := st.out + EncodeFrame(Frame(FrameBody, channel, body[..n]))), channel, body[n..])
  {
  }

  /** The body frames are the first chunk's frame, then the rest's. */
  lemma BodyFramesUnfold(channel: u16, body: seq<byte>, k: nat)
    requires k >= 1 && k < 0x1_0000_0000 && body != []
    ensures var n := Min(k, |body|);
      BodyFrames(channel, Chunks(body, k))
      == EncodeFrame(Frame(FrameBody, channel, body[..n])) + BodyFrames(channel, Chunks(body[n..], k))
  {
    var n := Min(k, |body|);
    var cs := Chunks(body, k);
    assert cs[0] == body[..n] && cs[1..] == Chunks(body[n..], k);
  }

  /** basic_publish writes its method frame, the header frame of a content
      of class 60 and weight 0 with no properties, and the body frames. */
  lemma PublishFrames(st: ConnState, id: u16, body: seq<byte>, ticket: u16, exchange: seq<byte>, routingKey: seq<byte>, mandatory: bool, immediate: bool)
    requires st.input.Some? && st.frameMax > 8
    requires |exchange| <= 255 && |routingKey| <= 255 && |body| < 0x1_0000_0000_0000_0000
    ensures var args := BasicPublishArgs(ticket, exchange, routingKey, mandatory, immediate);
      && args.Ok?
      && BasicPublish(st, id, body, ticket, exchange, routingKey, mandatory, immediate)
         == Step(st.(out := st.out + MethodFrame(id, 60, 40, args.value).value
                                    + HeaderFrame(id, 60, 0, |body|, [0, 0]).value
                                    + BodyFrames(id, Chunks(body, st.frameMax - 8))),
                 Ok(NoReply))
  {
    var args := BasicPublishArgs(ticket, exchange, routingKey, mandatory, immediate).value;
    PublishSends(st, id, body, ticket, exchange, routingKey, mandatory, immediate);
    SendContentFrames(st.(out := st.out + MethodFrame(id, 60, 40, args).value), id, 60, 0, [0, 0], body);
  }

  /** basic_publish sends its method frame, then the content with its
      properties packed as a zero short. */
  lemma PublishSends(st: ConnState, id: u16, body: seq<byte>, ticket: u16, exchange: seq<byte>, routingKey: seq<byte>, mandatory: bool, immediate: bool)
    requires st.input.Some? && st.frameMax > 8
    requires |exchange| <= 255 && |routingKey| <= 255
    ensures var args := BasicPublishArgs(ticket, exchange, routingKey, mandatory, immediate);
      && args.Ok? && MethodFrame(id, 60, 40, args.value).Ok?
      && BasicPublish(st, id, body, ticket, exchange, routingKey, mandatory, immediate)
         == SendContent(st.(out := st.out + MethodFrame(id, 60, 40, args.value).value), id, 60, 0, |body|, [0, 0], body)
  {
    Pow256Widths();
    assert U16(0) == [0, 0];
  }

  // ---------------------------------------------------------------------
  // The opening handshake

  /** The loop's turn that reads start. */
  lemma StartTurn(st: ConnState, start: seq<byte>)
    requires Wf(st) && st.input.Some? && st.waiting && ParseStart(start).Ok? && |start| + 4 < 0x1_0000_0000
    requires At(st.input.value.data, st.input.value.pos, MethodFrame(0, 10, 10, start).value)
    ensures Handshake(st) == Handshake(MoveTo(st, st.input.value.pos + |start| + 12).(out := st.out + StartOkFrame()))
  {
    MethodFrameNext(st, 0, 10, 10, start);
    StartExchange(st, start);
    HandshakeRuns(st, MoveTo(st, st.input.value.pos + |start| + 12).(out := st.out + StartOkFrame()));
  }

  /** The loop's turn that reads tune. */
  lemma TuneTurn(st: ConnState, channelMax: u16, frameMax: u32, heartbeat: u16)
    requires Wf(st) && st.input.Some? && st.waiting
    requires At(st.input.value.data, st.input.value.pos, MethodFrame(0, 10, 30, U16(channelMax) + U32(frameMax) + U16(heartbeat)).value)
    ensures var fm := if frameMax == 0 then DefaultFrameMax else frameMax;
      Handshake(st) == Handshake(MoveTo(st, st.input.value.pos + 20).(channelMax := channelMax, frameMax := fm, heartbeat := heartbeat,
        out := st.out + MethodFrame(0, 10, 31, U16(channelMax) + U32(fm) + U16(0)).value + MethodFrame(0, 10, 40, [1, 0x2F, 0, 0]).value))
  {
    var fm := if frameMax == 0 then DefaultFrameMax else frameMax;
    MethodFrameNext(st, 0, 10, 30, U16(channelMax) + U32(frameMax) + U16(heartbeat));
    TuneExchange(st, channelMax, frameMax, heartbeat);
    HandshakeRuns(st, MoveTo(st, st.input.value.pos + 20).(channelMax := channelMax, frameMax := fm, heartbeat := heartbeat,
        out := st.out + MethodFrame(0, 10, 31, U16(channelMax) + U32(fm) + U16(0)).value + MethodFrame(0, 10, 40, [1, 0x2F, 0, 0]).value));
  }

  /** The loop's last turn, which reads open_ok: the known hosts are the
      short string at the start of its arguments. */
  lemma OpenOkTurn(st: ConnState, reply: seq<byte>)
    requires Wf(st) && st.input.Some? && st.waiting && ParseShortStr(reply, 0).Ok? && |reply| + 4 < 0x1_0000_0000
    requires At(st.input.value.data, st.input.value.pos, MethodFrame(0, 10, 41, reply).value)
    ensures Handshake(st)
      == Step(MoveTo(st, st.input.value.pos + |reply| + 12).(knownHosts := ParseShortStr(reply, 0).value.0, waiting := false), Ok(NoReply))
  {
    var st' := MoveTo(st, st.input.value.pos + |reply| + 12).(knownHosts := ParseShortStr(reply, 0).value.0, waiting := false);
    MethodFrameNext(st, 0, 10, 41, reply);
    OpenOkExchange(st, reply);
    HandshakeRuns(st, st');
    HandshakeDone(st');
  }

  /** The opening handshake: when the waits of __init__'s loop read start,
      tune and open_ok in turn, the loop stops after the third, in the state
      open_ok left. StartTurn, TuneTurn and OpenOkTurn give the same three
      turns from the bytes of the server's frames. */
  lemma HandshakeTurns(st0: ConnState, st1: ConnState, st2: ConnState, st3: ConnState)
    requires Wf(st0) && st0.waiting && Wait(st0) == Step(st1, Ok(NoReply))
    requires st1.waiting && Wait(st1) == Step(st2, Ok(NoReply))
    requires st2.waiting && Wait(st2) == Step(st3, Ok(NoReply))
    requires !st3.waiting
    ensures Handshake(st0) == Step(st3, Ok(NoReply))
  {
    HandshakeRuns(st0, st1);
    HandshakeRuns(st1, st2);
    HandshakeRuns(st2, st3);
    HandshakeDone(st3);
  }

  /** While waiting, one successful wait is one turn of __init__'s loop. */
  lemma HandshakeRuns(st: ConnState, st': ConnState)
    requires Wf(st) && st.waiting && Wait(st) == Step(st', Ok(NoReply))
    ensures Handshake(st) == Handshake(st')
  {
  }

  /** __init__'s loop stops once nothing is awaited. */
  lemma HandshakeDone(st: ConnState)
    requires Wf(st) && !st.waiting
    ensures Handshake(st) == Step(st, Ok(NoReply))
  {
  }

  /** A start frame next is answered with start_ok. */
  lemma StartExchange(st: ConnState, start: seq<byte>)
    requires Wf(st) && st.input.Some? && ParseStart(start).Ok?
    requires MethodNext(st.input.value, 0, 10, 10, start)
    ensures Wait(st) == Step(MoveTo(st, st.input.value.pos + |start| + 12).(out := st.out + StartOkFrame()), Ok(NoReply))
  {
    WaitRoutes(st, 0, 10, 10, start);
    StartAnswers(MoveTo(st, st.input.value.pos + |start| + 12), start);
  }

  /** A tune frame next is answered with tune_ok and open. */
  lemma TuneExchange(st: ConnState, channelMax: u16, frameMax: u32, heartbeat: u16)
    requires Wf(st) && st.input.Some?
    requires MethodNext(st.input.value, 0, 10, 30, U16(channelMax) + U32(frameMax) + U16(heartbeat))
    ensures var fm := if frameMax == 0 then DefaultFrameMax else frameMax;
      Wait(st) == Step(MoveTo(st, st.input.value.pos + 20).(channelMax := channelMax, frameMax := fm, heartbeat := heartbeat,
        out := st.out + MethodFrame(0, 10, 31, U16(channelMax) + U32(fm) + U16(0)).value + MethodFrame(0, 10, 40, [1, 0x2F, 0, 0]).value),
        Ok(NoReply))
  {
    var tune := U16(channelMax) + U32(frameMax) + U16(heartbeat);
    WaitRoutes(st, 0, 10, 30, tune);
    TuneReplies(MoveTo(st, st.input.value.pos + 20), channelMax, frameMax, heartbeat, []);
    assert tune + [] == tune;
  }

  /** An open_ok frame next ends the handshake, keeping the short string
      its arguments start with (OpenOkEndsWaiting gives that string for the
      arguments the server writes). */
  lemma OpenOkExchange(st: ConnState, reply: seq<byte>)
    requires Wf(st) && st.input.Some? && ParseShortStr(reply, 0).Ok?
    requires MethodNext(st.input.value, 0, 10, 41, reply)
    ensures Wait(st) == Step(MoveTo(st, st.input.value.pos + |reply| + 12).(knownHosts := ParseShortStr(reply, 0).value.0, waiting := false), Ok(NoReply))
  {
    WaitRoutes(st, 0, 10, 41, reply);
  }
}
