/** The connection and channel state machines of the client as functions on
    a value: what each request and each inbound method does to the
    connection's state and which bytes it writes. The socket is replaced by
    the received bytes with a read position and by the log of the bytes
    written. Client's classes are proved to compute exactly these. */
module Protocol {
  import opened Wire
  import opened Fields
  import opened Framing

  /** 'AMQP', then protocol class 1, instance 1, version 9.1; sent before
      any frame. */
  const ProtocolHeader: seq<byte> := [0x41, 0x4D, 0x51, 0x50, 1, 1, 9, 1]

  /** The frame_max tune uses when the server proposes 0. */
  const DefaultFrameMax: u32 := 131072

  /** The received bytes and the position of the next read. */
  datatype Cursor = Cursor(data: seq<byte>, pos: nat)

  /** The state of a Connection and of its Channels. */
  datatype ConnState = ConnState(
    input: Option<Cursor>,     // None once _close_ok has cleared input and out
    out: seq<byte>,            // every byte written to the socket so far
    channels: map<u16, bool>,  // the registered channel ids and their is_open
    waiting: bool,
    channelMax: u16,
    frameMax: u32,
    heartbeat: u16,
    knownHosts: seq<byte>)

  /** The read position is within the received bytes. */
  predicate Wf(st: ConnState)
  {
    st.input.Some? ==> st.input.value.pos <= |st.input.value.data|
  }

  /** How many received bytes are still unread (none without a transport). */
  function Remaining(st: ConnState): nat
    requires Wf(st)
  {
    if st.input.None? then 0 else |st.input.value.data| - st.input.value.pos
  }

  /** What a handler returns: access_request_ok returns the ticket, every
      other handler None. */
  datatype Reply = NoReply | Ticket(ticket: u16)

  /** The state after an operation and what it returned or raised. The state
      is kept on an error too: what was written or read before the raise
      stays written or read. */
  datatype Step = Step(state: ConnState, result: Result<Reply>)

  /** The state right after __init__ has written the protocol header. */
  function Initial(data: seq<byte>): (st: ConnState)
    ensures Wf(st)
  {
    ConnState(Some(Cursor(data, 0)), ProtocolHeader, map[], true, 0, 0, 0, [])
  }

  /** Neither the transport nor the channels changed. */
  predicate Keeps(st: ConnState, st': ConnState)
  {
    st'.input == st.input && st'.channels == st.channels
  }

  /** The connection moved to read position pos. */
  function MoveTo(st: ConnState, pos: nat): ConnState
    requires st.input.Some?
  {
    st.(input := Some(st.input.value.(pos := pos)))
  }

  /** A wait's result is dropped: close, Channel.open and Channel.close
      return None. */
  function Discard(s: Step): (r: Step)
  {
    if s.result.Ok? then Step(s.state, Ok(NoReply)) else s
  }

  // ---------------------------------------------------------------------
  // Writing

  /** out.write: after _close_ok out is None and writing raises. */
  function Send(st: ConnState, bytes: seq<byte>): (r: Step)
    ensures Keeps(st, r.state)
  {
    if st.input.None? then Step(st, Err(NoTransport))
    else Step(st.(out := st.out + bytes), Ok(NoReply))
  }

  /** send_method_frame. */
  function SendMethodFrame(st: ConnState, channel: u16, classId: u16, methodId: u16, args: seq<byte>): (r: Step)
    ensures Keeps(st, r.state)
  {
    match MethodFrame(channel, classId, methodId, args)
    case Err(e) => Step(st, Err(e))
    case Ok(frame) => Send(st, frame)
  }

  /** send_method_frame with arguments whose packing may have raised. */
  function SendArgs(st: ConnState, channel: u16, classId: u16, methodId: u16, args: Result<seq<byte>>): (r: Step)
    ensures Keeps(st, r.state)
  {
    if args.Err? then Step(st, Err(args.error)) else SendMethodFrame(st, channel, classId, methodId, args.value)
  }

  /** The arguments of close and Channel.close. */
  function CloseArgs(replyCode: u16, replyText: seq<byte>, classId: u16, methodId: u16): (r: Result<seq<byte>>)
    ensures r.Ok? <==> |replyText| <= 255
    ensures r.Ok? ==> |r.value| == |replyText| + 7
  {
    var text :- EncodeShortStr(replyText);
    Ok(U16(replyCode) + text + U16(classId) + U16(methodId))
  }

  /** The arguments of open: two short strings and the insist octet. */
  function OpenArgs(virtualHost: seq<byte>, capabilities: seq<byte>, insist: bool): (r: Result<seq<byte>>)
    ensures r.Ok? <==> |virtualHost| <= 255 && |capabilities| <= 255
    ensures r.Ok? ==> |r.value| == |virtualHost| + |capabilities| + 3 && r.value[|r.value| - 1] == (if insist then 1 else 0)
  {
    var host :- EncodeShortStr(virtualHost);
    var caps :- EncodeShortStr(capabilities);
    Ok(host + caps + [if insist then 1 else 0])
  }

  /** The arguments of start_ok. */
  function StartOkArgs(clientProperties: seq<Field>, mechanism: seq<byte>, response: seq<byte>, locale: seq<byte>): (r: Result<seq<byte>>)
    ensures r.Ok? <==> EncodeTable(clientProperties).Ok? && |mechanism| <= 255 && |response| < 0x1_0000_0000 && |locale| <= 255
  {
    var props :- EncodeTable(clientProperties);
    var mech :- EncodeShortStr(mechanism);
    var resp :- EncodeLongStr(response);
    var loc :- EncodeShortStr(locale);
    Ok(props + mech + resp + loc)
  }

  /** The arguments of tune_ok. */
  function TuneOkArgs(channelMax: u16, frameMax: u32, heartbeat: u16): (r: seq<byte>)
    ensures |r| == 8
    ensures DecodeUInt(r[..2]) == channelMax as nat && DecodeUInt(r[2..6]) == frameMax as nat && DecodeUInt(r[6..]) == heartbeat as nat
  {
    Pow256Widths();
    DecodeEncode(channelMax as nat, 2);
    DecodeEncode(frameMax as nat, 4);
    DecodeEncode(heartbeat as nat, 2);
    var r := U16(channelMax) + U32(frameMax) + U16(heartbeat);
    assert r[..2] == U16(channelMax) && r[2..6] == U32(frameMax) && r[6..] == U16(heartbeat);
    r
  }

  /** The arguments of access_request: the realm, then five booleans packed
      into one byte. */
  function AccessRequestArgs(realm: seq<byte>, exclusive: bool, passive: bool, active: bool, write: bool, read: bool): (r: Result<seq<byte>>)
    ensures r.Ok? <==> |realm| <= 255
    ensures r.Ok? ==> |r.value| == |realm| + 2
  {
    var name :- EncodeShortStr(realm);
    Ok(name + PackBits([exclusive, passive, active, write, read]))
  }

  /** The arguments of basic_publish: the ticket, exchange and routing key,
      then two booleans packed into one byte. */
  function BasicPublishArgs(ticket: u16, exchange: seq<byte>, routingKey: seq<byte>, mandatory: bool, immediate: bool): (r: Result<seq<byte>>)
    ensures r.Ok? <==> |exchange| <= 255 && |routingKey| <= 255
    ensures r.Ok? ==> |r.value| == |exchange| + |routingKey| + 5
  {
    var ex :- EncodeShortStr(exchange);
    var key :- EncodeShortStr(routingKey);
    Ok(U16(ticket) + ex + key + PackBits([mandatory, immediate]))
  }

  /** The client properties start sends, in the order they are written. */
  const ClientProperties: seq<Field> :=
    [Field(Ascii("product"), LongStr(Ascii("Python AMQP"))), Field(Ascii("version"), LongStr(Ascii("0.1")))]

  /** The AMQPLAIN login table, in the order it is written. */
  const LoginTable: seq<Field> :=
    [Field(Ascii("LOGIN"), LongStr(Ascii("guest"))), Field(Ascii("PASSWORD"), LongStr(Ascii("guest")))]

  /** start's login response: the login table as written by write_table,
      without its first 4 bytes. */
  function Login(): Result<seq<byte>>
  {
    Response(LoginTable)
  }

  /** A table as write_table writes it, without its first 4 bytes. */
  function Response(table: seq<Field>): Result<seq<byte>>
  {
    var t :- EncodeTable(table);
    Ok(if |t| < 4 then [] else t[4..])
  }

  /** The response is exactly the table's entries: the 4 bytes cut off are
      the table's length. */
  lemma LoginIsEntries()
    ensures EncodeFields(LoginTable).Ok? && Login() == Ok(EncodeFields(LoginTable).value)
    ensures |Login().value| == 35
  {
    var login := Field(Ascii("LOGIN"), LongStr(Ascii("guest")));
    var password := Field(Ascii("PASSWORD"), LongStr(Ascii("guest")));
    assert |EncodeField(login).value| == 16;
    assert |EncodeField(password).value| == 19;
    assert LoginTable[1..] == [password];
    assert EncodeFields([password]) == Ok(EncodeField(password).value + []);
    var body := EncodeFields(LoginTable).value;
    assert |body| == 35;
    assert (U32(|body|) + body)[4..] == body;
  }

  /** send_content: the header frame, then the body in frames of at most
      frame_max - 8 bytes. */
  function SendContent(st: ConnState, channel: u16, classId: u16, weight: u16, bodySize: nat, properties: seq<byte>, body: seq<byte>): (r: Step)
    ensures Keeps(st, r.state)
    requires st.frameMax > 8 || body == []
  {
    if |properties| + 12 >= 0x1_0000_0000 || bodySize >= 0x1_0000_0000_0000_0000 then Step(st, Err(OutOfRange))
    else
      var s := Send(st, HeaderFrame(channel, classId, weight, bodySize, properties).value);
      if s.result.Err? then s else SendBody(s.state, channel, body)
  }

  /** send_content's loop: while body is left, one frame of its first
      frame_max - 8 bytes, and the rest goes round again. */
  function SendBody(st: ConnState, channel: u16, body: seq<byte>): (r: Step)
    ensures Keeps(st, r.state)
    requires st.frameMax > 8 || body == []
    decreases |body|
  {
    if body == [] then Step(st, Ok(NoReply))
    else
      var n := Min(st.frameMax - 8, |body|);
      var s := Send(st, EncodeFrame(Frame(FrameBody, channel, body[..n])));
      if s.result.Err? then s else SendBody(s.state, channel, body[n..])
  }

  /** Content.serialize: no properties, written as a zero short, and the body. */
  function Serialize(body: seq<byte>): (r: (seq<byte>, seq<byte>))
    ensures |r.0| == 2 && DecodeUInt(r.0) == 0 && r.1 == body
  {
    DecodeEncode(0, 2);
    (U16(0), body)
  }

  // ---------------------------------------------------------------------
  // Connection requests and handlers

  /** open: sent by tune_ok; it does not wait for open_ok. */
  function Open(st: ConnState, virtualHost: seq<byte>, capabilities: seq<byte>, insist: bool): (r: Step)
    ensures Keeps(st, r.state)
  {
    SendArgs(st, 0, 10, 40, OpenArgs(virtualHost, capabilities, insist))
  }

  /** close: the request, then one wait for the server's answer. */
  function Close(st: ConnState, replyCode: u16, replyText: seq<byte>, classId: u16, methodId: u16): (r: Step)
    requires Wf(st)
    ensures Wf(r.state) && r.state.channels.Keys == st.channels.Keys
    ensures r.result.Ok? ==> r.result == Ok(NoReply)
    ensures |replyText| > 255 ==> r == Step(st, Err(StringTooLong))
  {
    Discard(Request(st, 0, 10, 60, CloseArgs(replyCode, replyText, classId, methodId)))
  }

  /** The arguments of connection.start as start reads them; start only
      prints them. */
  datatype StartFields = StartFields(versionMajor: nat, versionMinor: nat, properties: seq<Field>, mechanisms: seq<byte>, locales: seq<byte>)

  function ParseStart(args: seq<byte>): (r: Result<StartFields>)
    ensures r.Ok? ==> |args| >= 14 && r.value.versionMajor < 256 && r.value.versionMinor < 256
    ensures |args| < 2 ==> r == Err(Truncated)
  {
    var major :- ParseUInt(args, 0, 1);
    var minor :- ParseUInt(args, major.1, 1);
    var props :- ParseTable(args, minor.1);
    var mechanisms :- ParseLongStr(args, props.1);
    var locales :- ParseLongStr(args, mechanisms.1);
    Ok(StartFields(major.0, minor.0, props.0, mechanisms.0, locales.0))
  }

  /** start: read the server's arguments, then answer with start_ok. */
  function Start(st: ConnState, args: seq<byte>): (r: Step)
    ensures Keeps(st, r.state)
  {
    match ParseStart(args)
    case Err(e) => Step(st, Err(e))
    case Ok(_) =>
      LoginIsEntries();
      StartOk(st, ClientProperties, Ascii("AMQPLAIN"), Login().value, Ascii("en_US"))
  }

  function StartOk(st: ConnState, clientProperties: seq<Field>, mechanism: seq<byte>, response: seq<byte>, locale: seq<byte>): (r: Step)
    ensures Keeps(st, r.state)
  {
    SendArgs(st, 0, 10, 11, StartOkArgs(clientProperties, mechanism, response, locale))
  }

  /** tune's reads: each field is stored as soon as it is read, and a
      frame_max of 0 becomes 131072. */
  function TuneLimits(st: ConnState, args: seq<byte>): (r: Step)
    ensures Keeps(st, r.state)
  {
    Pow256Widths();
    match ParseUInt(args, 0, 2)
    case Err(e) => Step(st, Err(e))
    case Ok(cm) =>
      var st1 := st.(channelMax := cm.0);
      match ParseUInt(args, cm.1, 4)
      case Err(e) => Step(st1, Err(e))
      case Ok(fm) =>
        var st2 := st1.(frameMax := fm.0);
        match ParseUInt(args, fm.1, 2)
        case Err(e) => Step(st2, Err(e))
        case Ok(hb) =>
          Step(st2.(heartbeat := hb.0, frameMax := if fm.0 == 0 then DefaultFrameMax else fm.0), Ok(NoReply))
  }

  /** tune: the limits are read and stored, then tune_ok with heartbeat 0. */
  function Tune(st: ConnState, args: seq<byte>): (r: Step)
    ensures Keeps(st, r.state)
  {
    var s := TuneLimits(st, args);
    if s.result.Err? then s else TuneOk(s.state, s.state.channelMax, s.state.frameMax, 0)
  }

  /** tune_ok, which goes on to open the virtual host '/'. */
  function TuneOk(st: ConnState, channelMax: u16, frameMax: u32, heartbeat: u16): (r: Step)
    ensures Keeps(st, r.state)
  {
    var s := SendMethodFrame(st, 0, 10, 31, TuneOkArgs(channelMax, frameMax, heartbeat));
    if s.result.Err? then s else Open(s.state, Ascii("/"), [], false)
  }

  /** open_ok: the known hosts are stored and the handshake is over. */
  function OpenOk(st: ConnState, args: seq<byte>): (r: Step)
    ensures Keeps(st, r.state)
  {
    match ParseShortStr(args, 0)
    case Err(e) => Step(st, Err(e))
    case Ok(hosts) => Step(st.(knownHosts := hosts.0, waiting := false), Ok(NoReply))
  }

  /** _close: the server closes; its four arguments are read, then
      close_ok. */
  function ServerClose(st: ConnState, args: seq<byte>): (r: Step)
    ensures Keeps(st, r.state)
  {
    match ParseUInt(args, 0, 2)
    case Err(e) => Step(st, Err(e))
    case Ok(code) =>
      match ParseShortStr(args, code.1)
      case Err(e) => Step(st, Err(e))
      case Ok(text) =>
        match ParseUInt(args, text.1, 2)
        case Err(e) => Step(st, Err(e))
        case Ok(cls) =>
          match ParseUInt(args, cls.1, 2)
          case Err(e) => Step(st, Err(e))
          case Ok(_) => CloseOk(st)
  }

  function CloseOk(st: ConnState): (r: Step)
    ensures Keeps(st, r.state)
  {
    SendMethodFrame(st, 0, 10, 61, [])
  }

  /** _close_ok: input and out are cleared. */
  function ServerCloseOk(st: ConnState): (r: Step)
    ensures r.state.input.None? && r.result.Ok?
    ensures r.state.(input := st.input) == st
  {
    Step(st.(input := None), Ok(NoReply))
  }

  /** dispatch_method_connection: an unknown method id is only printed. */
  function DispatchConnection(st: ConnState, methodId: u16, args: seq<byte>): (r: Step)
    ensures r.state.input == st.input || r.state.input.None?
    ensures r.state.channels == st.channels
  {
    if methodId == 10 then Start(st, args)
    else if methodId == 30 then Tune(st, args)
    else if methodId == 41 then OpenOk(st, args)
    else if methodId == 60 then ServerClose(st, args)
    else if methodId == 61 then ServerCloseOk(st)
    else Step(st, Ok(NoReply))
  }

  // ---------------------------------------------------------------------
  // Channel requests and handlers

  /** channel(id): the registered channel, or a new closed one registered
      under id; either way it is opened. */
  function OpenChannel(st: ConnState, id: u16): (r: Step)
    requires Wf(st)
    ensures Wf(r.state) && r.state.channels.Keys == st.channels.Keys + {id}
    ensures r.result.Ok? ==> r.result == Ok(NoReply)
  {
    var st1 := if id in st.channels then st else st.(channels := st.channels[id := false]);
    ChannelOpen(st1, id, [])
  }

  /** Channel.open: nothing at all when the channel is open already. */
  function ChannelOpen(st: ConnState, id: u16, outOfBand: seq<byte>): (r: Step)
    requires Wf(st) && id in st.channels
    ensures Wf(r.state) && r.state.channels.Keys == st.channels.Keys
    ensures r.result.Ok? ==> r.result == Ok(NoReply)
    ensures !st.channels[id] && |outOfBand| > 255 ==> r == Step(st, Err(StringTooLong))
  {
    if st.channels[id] then Step(st, Ok(NoReply))
    else
      Discard(Request(st, id, 20, 10, EncodeShortStr(outOfBand)))
  }

  /** Channel.close: the request, then one wait; is_open changes only when
      close_ok arrives. */
  function ChannelClose(st: ConnState, id: u16, replyCode: u16, replyText: seq<byte>, classId: u16, methodId: u16): (r: Step)
    requires Wf(st)
    ensures Wf(r.state) && r.state.channels.Keys == st.channels.Keys
    ensures r.result.Ok? ==> r.result == Ok(NoReply)
    ensures |replyText| > 255 ==> r == Step(st, Err(StringTooLong))
  {
    Discard(Request(st, id, 20, 40, CloseArgs(replyCode, replyText, classId, methodId)))
  }

  /** access_request: the request, then one wait, whose result (the ticket
      when access_request_ok arrives) is returned. */
  function AccessRequest(st: ConnState, id: u16, realm: seq<byte>, exclusive: bool, passive: bool, active: bool, write: bool, read: bool): (r: Step)
    requires Wf(st)
    ensures Wf(r.state) && r.state.channels.Keys == st.channels.Keys
    ensures |realm| > 255 ==> r == Step(st, Err(StringTooLong))
  {
    Request(st, id, 30, 10, AccessRequestArgs(realm, exclusive, passive, active, write, read))
  }

  /** basic_publish: the method frame, then the message as content of class
      60 with weight 0. */
  function BasicPublish(st: ConnState, id: u16, body: seq<byte>, ticket: u16, exchange: seq<byte>, routingKey: seq<byte>, mandatory: bool, immediate: bool): (r: Step)
    requires st.frameMax > 8 || body == []
    ensures Keeps(st, r.state)
    ensures |exchange| > 255 || |routingKey| > 255 ==> r == Step(st, Err(StringTooLong))
  {
    var s := SendArgs(st, id, 60, 40, BasicPublishArgs(ticket, exchange, routingKey, mandatory, immediate));
    if s.result.Err? then s
    else
      var (properties, content) := Serialize(body);
      SendContent(s.state, id, 60, 0, |content|, properties, content)
  }

  /** Channel.dispatch_method: open_ok, close_ok and access_request_ok; any
      other method is only printed. */
  function ChannelDispatch(st: ConnState, id: u16, classId: u16, methodId: u16, args: seq<byte>): (r: Step)
    requires id in st.channels
    ensures r.state.input == st.input && r.state.channels.Keys == st.channels.Keys
  {
    if classId == 20 && methodId == 11 then Step(st.(channels := st.channels[id := true]), Ok(NoReply))
    else if classId == 20 && methodId == 41 then Step(st.(channels := st.channels[id := false]), Ok(NoReply))
    else if classId == 30 && methodId == 11 then AccessRequestOk(st, args)
    else Step(st, Ok(NoReply))
  }

  /** access_request_ok: the ticket is returned. */
  function AccessRequestOk(st: ConnState, args: seq<byte>): (r: Step)
    ensures Keeps(st, r.state)
  {
    match ParseUInt(args, 0, 2)
    case Err(e) => Step(st, Err(e))
    case Ok(t) => Pow256Widths(); Step(st, Ok(Ticket(t.0)))
  }

  // ---------------------------------------------------------------------
  // Receiving

  /** dispatch_method after the class and method ids are split off: class 10
      to the connection, classes 20 and 30 to the channel the frame names,
      which must be registered; any other class is dropped. */
  function Route(st: ConnState, channel: u16, classId: u16, methodId: u16, args: seq<byte>): (r: Step)
    ensures r.state.input == st.input || r.state.input.None?
    ensures r.state.channels.Keys == st.channels.Keys
  {
    if classId == 10 then DispatchConnection(st, methodId, args)
    else if classId == 20 || classId == 30 then
      if channel in st.channels then ChannelDispatch(st, channel, classId, methodId, args)
      else Step(st, Err(NoSuchChannel(channel)))
    else Step(st, Ok(NoReply))
  }

  /** dispatch_method. */
  function DispatchMethod(st: ConnState, channel: u16, payload: seq<byte>): (r: Step)
    ensures r.state.input == st.input || r.state.input.None?
    ensures r.state.channels.Keys == st.channels.Keys
  {
    match ParseMethod(payload)
    case Err(e) => Step(st, Err(e))
    case Ok((classId, methodId, args)) => Route(st, channel, classId, methodId, args)
  }

  /** wait: one frame is read; a method frame is dispatched and its result
      returned, any other frame is dropped. A frame read consumes at least
      its 8 bytes of envelope. */
  function Wait(st: ConnState): (r: Step)
    requires Wf(st)
    ensures Wf(r.state) && r.state.channels.Keys == st.channels.Keys
    ensures r.result.Ok? ==> Remaining(r.state) + 8 <= Remaining(st)
  {
    match st.input
    case None => Step(st, Err(NoTransport))
    case Some(c) =>
      var next := MoveTo(st, FrameAfter(c.data, c.pos));
      match ParseFrame(c.data, c.pos)
      case Err(e) => Step(next, Err(e))
      case Ok((f, _)) =>
        if f.kind == FrameMethod then DispatchMethod(next, f.channel, f.payload) else Step(next, Ok(NoReply))
  }

  /** The shape of every request that awaits an answer: the method frame,
      then one wait, whose result is returned. */
  function Request(st: ConnState, channel: u16, classId: u16, methodId: u16, args: Result<seq<byte>>): (r: Step)
    requires Wf(st)
    ensures Wf(r.state) && r.state.channels.Keys == st.channels.Keys
    ensures args.Err? ==> r == Step(st, Err(args.error))
  {
    var s := SendArgs(st, channel, classId, methodId, args);
    if s.result.Err? then s else Wait(s.state)
  }

  /** __init__'s loop: wait until open_ok has cleared waiting. */
  function Handshake(st: ConnState): (r: Step)
    requires Wf(st)
    decreases Remaining(st)
    ensures Wf(r.state) && r.state.channels.Keys == st.channels.Keys
    ensures r.result.Ok? ==> r.result == Ok(NoReply) && !r.state.waiting
    ensures r.result.Ok? ==> Remaining(r.state) + (if st.waiting then 8 else 0) <= Remaining(st)
  {
    if !st.waiting then Step(st, Ok(NoReply))
    else
      var s := Wait(st);
      if s.result.Err? then s else Handshake(s.state)
  }

  /** A whole Connection(...): the header, then the handshake. */
  function Connect(data: seq<byte>): (r: Step)
    ensures Wf(r.state) && r.state.channels == map[]
    ensures r.result.Ok? ==> !r.state.waiting && 8 <= |data|
  {
    Handshake(Initial(data))
  }
}
