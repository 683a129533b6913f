/** Connection, Channel and Content as classes over the codec's Reader and
    Writer. The socket is a Reader over the bytes the server sends and the
    sequence of the bytes written to it. Each method is proved to do to the
    connection exactly what the function of the same name in Protocol does
    to its state, so everything proved about Protocol holds of these
    classes. */
module Client {
  import opened Wire
  import opened Fields
  import opened Framing
  import opened Codec
  import Protocol

  /** wait's reads of one frame: the type octet, the channel short and the
      size long, size bytes of payload (fewer at the end of the input) and
      the frame-end octet, which must be 0xCE. The reader ends where
      ParseFrame says, whether the frame is good or not. */
  method ReadFrame(input: Reader) returns (r: Result<Frame>)
    requires input.Valid()
    modifies input
    ensures input.Valid()
    ensures r == Fst(ParseFrame(input.data, old(input.pos)))
    ensures input.pos == FrameAfter(input.data, old(input.pos))
  {
    Pow256Widths();
    ghost var s, start := input.data, input.pos;
    var kind :- input.ReadOctet();
    var channel :- input.ReadShort();
    var size :- input.ReadLong();
    assert size == DecodeUInt(s[start + 3..start + 7]);
    var payload := input.Read(size);
    var end :- input.ReadOctet();
    if end != FrameEnd {
      return Err(FramingError(end));
    }
    r := Ok(Frame(kind, channel, payload));
  }

  /** pack('>B', n) is the one byte n. */
  lemma OctetBytes(n: byte)
    ensures Pow256(1) == 0x100 && EncodeUInt(n, 1) == [n]
  {
    Pow256Widths();
    assert EncodeUInt(n, 1) == EncodeUInt(n / 0x100, 0) + [n % 0x100];
  }

  /** send_method_frame's packing: the frame is written by a writer of its
      own. A size that does not fit the long raises in pack. */
  method PackMethodFrame(channel: u16, classId: u16, methodId: u16, args: seq<byte>) returns (r: Result<seq<byte>>)
    ensures r == MethodFrame(channel, classId, methodId, args)
  {
    OctetBytes(FrameMethod);
    OctetBytes(FrameEnd);
    var pkt := new Writer();
    pkt.WriteOctet(FrameMethod);
    pkt.WriteShort(channel);
    if |args| + 4 >= 0x1_0000_0000 {
      return Err(OutOfRange);
    }
    ghost var prefix := [FrameMethod] + U16(channel);
    assert pkt.out == prefix;
    pkt.WriteLong(|args| + 4);
    pkt.WriteShort(classId);
    pkt.WriteShort(methodId);
    assert pkt.out == prefix + U32(|args| + 4) + U16(classId) + U16(methodId);
    pkt.Write(args);
    pkt.WriteOctet(FrameEnd);
    var frame := pkt.GetValue();
    assert frame == prefix + U32(|args| + 4) + (U16(classId) + U16(methodId) + args) + [FrameEnd];
    r := Ok(frame);
  }

  /** close's and Channel.close's arguments, written by a writer of their
      own. */
  method PackCloseArgs(replyCode: u16, replyText: seq<byte>, classId: u16, methodId: u16) returns (r: Result<seq<byte>>)
    ensures r == Protocol.CloseArgs(replyCode, replyText, classId, methodId)
  {
    var args := new Writer();
    args.WriteShort(replyCode);
    assert args.out == U16(replyCode);
    var e := args.WriteShortStr(replyText);
    if e.Fail? {
      assert Protocol.CloseArgs(replyCode, replyText, classId, methodId) == Err(e.error);
      return Err(e.error);
    }
    assert args.out == U16(replyCode) + EncodeShortStr(replyText).value;
    args.WriteShort(classId);
    args.WriteShort(methodId);
    var packed := args.GetValue();
    assert packed == U16(replyCode) + EncodeShortStr(replyText).value + U16(classId) + U16(methodId);
    r := Ok(packed);
  }

  /** open's arguments. */
  method PackOpenArgs(virtualHost: seq<byte>, capabilities: seq<byte>, insist: bool) returns (r: Result<seq<byte>>)
    ensures r == Protocol.OpenArgs(virtualHost, capabilities, insist)
  {
    var args := new Writer();
    var e := args.WriteShortStr(virtualHost);
    if e.Fail? {
      return Err(e.error);
    }
    assert args.out == EncodeShortStr(virtualHost).value;
    e := args.WriteShortStr(capabilities);
    if e.Fail? {
      return Err(e.error);
    }
    assert args.out == EncodeShortStr(virtualHost).value + EncodeShortStr(capabilities).value;
    OctetBytes(if insist then 1 else 0);
    args.WriteOctet(if insist then 1 else 0);
    var packed := args.GetValue();
    assert packed == EncodeShortStr(virtualHost).value + EncodeShortStr(capabilities).value + [if insist then 1 else 0];
    r := Ok(packed);
  }

  /** start_ok's arguments. */
  method PackStartOkArgs(clientProperties: seq<Field>, mechanism: seq<byte>, response: seq<byte>, locale: seq<byte>) returns (r: Result<seq<byte>>)
    ensures r == Protocol.StartOkArgs(clientProperties, mechanism, response, locale)
  {
    ghost var table, mech := EncodeTable(clientProperties), EncodeShortStr(mechanism);
    ghost var resp, loc := EncodeLongStr(response), EncodeShortStr(locale);
    assert Protocol.StartOkArgs(clientProperties, mechanism, response, locale)
      == if table.Err? then Err(table.error) else if mech.Err? then Err(mech.error)
         else if resp.Err? then Err(resp.error) else if loc.Err? then Err(loc.error)
         else Ok(table.value + mech.value + resp.value + loc.value);
    var args := new Writer();
    var e := args.WriteTable(clientProperties);
    if e.Fail? {
      return Err(e.error);
    }
    assert args.out == table.value;
    e := args.WriteShortStr(mechanism);
    if e.Fail? {
      return Err(e.error);
    }
    assert args.out == table.value + mech.value;
    e := args.WriteLongStr(response);
    if e.Fail? {
      return Err(e.error);
    }
    assert args.out == table.value + mech.value + resp.value;
    e := args.WriteShortStr(locale);
    if e.Fail? {
      return Err(e.error);
    }
    var packed := args.GetValue();
    assert packed == table.value + mech.value + resp.value + loc.value;
    r := Ok(packed);
  }

  /** tune_ok's arguments. */
  method PackTuneOkArgs(channelMax: u16, frameMax: u32, heartbeat: u16) returns (r: seq<byte>)
    ensures r == Protocol.TuneOkArgs(channelMax, frameMax, heartbeat)
  {
    var args := new Writer();
    args.WriteShort(channelMax);
    args.WriteLong(frameMax);
    args.WriteShort(heartbeat);
    r := args.GetValue();
  }

  /** start's login response: a table written by a writer of its own,
      without the table's first 4 bytes. */
  method PackResponse(table: seq<Field>) returns (r: Result<seq<byte>>)
    ensures r == Protocol.Response(table)
  {
    var response := new Writer();
    var e := response.WriteTable(table);
    if e.Fail? {
      return Err(e.error);
    }
    var packed := response.GetValue();
    assert packed == EncodeTable(table).value;
    r := Ok(if |packed| < 4 then [] else packed[4..]);
  }

  /** send_content's header frame. The source's writer raises when the size
      len(properties) + 12 or the body size does not fit its field; the
      packet is local, so checking both first is the same. */
  method PackHeaderFrame(channel: u16, classId: u16, weight: u16, bodySize: nat, properties: seq<byte>) returns (r: Result<seq<byte>>)
    ensures r.Err? <==> |properties| + 12 >= 0x1_0000_0000 || bodySize >= 0x1_0000_0000_0000_0000
    ensures r.Err? ==> r.error == OutOfRange
    ensures r.Ok? ==> r.value == HeaderFrame(channel, classId, weight, bodySize, properties).value
  {
    if |properties| + 12 >= 0x1_0000_0000 || bodySize >= 0x1_0000_0000_0000_0000 {
      return Err(OutOfRange);
    }
    var frame := WriteHeaderFrame(channel, classId, weight, bodySize, properties);
    r := Ok(frame);
  }

  /** The header frame written field by field: type 2, the channel, the
      size, class id, weight, body size and the packed properties, then
      0xCE. */
  method WriteHeaderFrame(channel: u16, classId: u16, weight: u16, bodySize: u64, properties: seq<byte>) returns (r: seq<byte>)
    requires |properties| + 12 < 0x1_0000_0000
    ensures HeaderFrame(channel, classId, weight, bodySize, properties) == Ok(r)
  {
    OctetBytes(FrameHeader);
    OctetBytes(FrameEnd);
    ghost var prefix := [FrameHeader] + U16(channel) + U32(|properties| + 12);
    ghost var payload := U16(classId) + U16(weight) + U64(bodySize) + properties;
    var pkt := new Writer();
    pkt.WriteOctet(FrameHeader);
    pkt.WriteShort(channel);
    pkt.WriteLong(|properties| + 12);
    assert pkt.out == prefix;
    pkt.WriteShort(classId);
    pkt.WriteShort(weight);
    assert pkt.out == prefix + U16(classId) + U16(weight);
    pkt.WriteLongLong(bodySize);
    assert pkt.out == prefix + U16(classId) + U16(weight) + U64(bodySize);
    pkt.Write(properties);
    assert pkt.out == prefix + U16(classId) + U16(weight) + U64(bodySize) + properties;
    assert pkt.out == prefix + payload;
    pkt.WriteOctet(FrameEnd);
    r := pkt.GetValue();
    assert |payload| == |properties| + 12;
    assert r == EncodeFrame(Frame(FrameHeader, channel, payload));
  }

  /** One body frame of send_content's loop: type 3, the channel, the
      payload's length, the payload and 0xCE. */
  method PackBodyFrame(channel: u16, payload: seq<byte>) returns (r: seq<byte>)
    requires |payload| < 0x1_0000_0000
    ensures r == EncodeFrame(Frame(FrameBody, channel, payload))
  {
    OctetBytes(FrameBody);
    OctetBytes(FrameEnd);
    var pkt := new Writer();
    pkt.WriteOctet(FrameBody);
    pkt.WriteShort(channel);
    pkt.WriteLong(|payload|);
    pkt.Write(payload);
    pkt.WriteOctet(FrameEnd);
    r := pkt.GetValue();
  }

  /** Channel.open's one argument, the out-of-band string. */
  method PackOpenChannelArgs(outOfBand: seq<byte>) returns (r: Result<seq<byte>>)
    ensures r == EncodeShortStr(outOfBand)
  {
    var args := new Writer();
    var e := args.WriteShortStr(outOfBand);
    if e.Fail? {
      return Err(e.error);
    }
    var packed := args.GetValue();
    assert packed == [|outOfBand|] + outOfBand;
    r := Ok(packed);
  }

  /** access_request's arguments: the realm, then the five booleans, which
      write_boolean packs into one byte. */
  method PackAccessRequestArgs(realm: seq<byte>, exclusive: bool, passive: bool, active: bool, write: bool, read: bool) returns (r: Result<seq<byte>>)
    ensures r == Protocol.AccessRequestArgs(realm, exclusive, passive, active, write, read)
  {
    var args := new Writer();
    var e := args.WriteShortStr(realm);
    if e.Fail? {
      return Err(e.error);
    }
    assert args.out == EncodeShortStr(realm).value;
    args.WriteBoolean(exclusive);
    args.WriteBoolean(passive);
    args.WriteBoolean(active);
    args.WriteBoolean(write);
    args.WriteBoolean(read);
    assert args.pending == [exclusive, passive, active, write, read];
    var packed := args.GetValue();
    r := Ok(packed);
  }

  /** basic_publish's arguments: the ticket, the exchange and routing key,
      then mandatory and immediate packed into one byte. */
  method PackBasicPublishArgs(ticket: u16, exchange: seq<byte>, routingKey: seq<byte>, mandatory: bool, immediate: bool) returns (r: Result<seq<byte>>)
    ensures r == Protocol.BasicPublishArgs(ticket, exchange, routingKey, mandatory, immediate)
  {
    var args := new Writer();
    args.WriteShort(ticket);
    assert args.out == U16(ticket);
    var e := args.WriteShortStr(exchange);
    if e.Fail? {
      return Err(e.error);
    }
    assert args.out == U16(ticket) + EncodeShortStr(exchange).value;
    e := args.WriteShortStr(routingKey);
    if e.Fail? {
      return Err(e.error);
    }
    assert args.out == U16(ticket) + EncodeShortStr(exchange).value + EncodeShortStr(routingKey).value;
    args.WriteBoolean(mandatory);
    args.WriteBoolean(immediate);
    assert args.pending == [mandatory, immediate];
    var packed := args.GetValue();
    r := Ok(packed);
  }

  /** start's reads: the version octets, the server properties table and
      the mechanisms and locales long strings. */
  method ReadStart(args: Reader) returns (r: Result<Protocol.StartFields>)
    requires args.Valid() && args.pos == 0
    modifies args
    ensures r == Protocol.ParseStart(args.data)
  {
    var versionMajor :- args.ReadOctet();
    var versionMinor :- args.ReadOctet();
    var properties :- args.ReadTable();
    var mechanisms :- args.ReadLongStr();
    var locales :- args.ReadLongStr();
    r := Ok(Protocol.StartFields(versionMajor, versionMinor, properties, mechanisms, locales));
  }

  /** Every channel in channels belongs to connection under its own id, and
      flags holds their is_open. */
  ghost predicate Registered(connection: Connection, channels: map<u16, Channel>, flags: map<u16, bool>)
    reads channels.Values
  {
    && flags.Keys == channels.Keys
    && (forall id | id in channels :: channels[id].connection == connection && channels[id].channelId == id && flags[id] == channels[id].isOpen)
  }

  /** An AMQP connection. input is None in the source once _close_ok has
      run, and so is out; here input is null then and out keeps what was
      written before. */
  class Connection {
    var channels: map<u16, Channel>
    var input: Reader?
    var out: seq<byte>
    var waiting: bool
    var channelMax: u16
    var frameMax: u32
    var heartbeat: u16
    var knownHosts: seq<byte>
    ghost var flags: map<u16, bool>  // the channels' is_open, kept in step with them

    /** The channels are consistent and so is the input reader. */
    ghost predicate Valid()
      reads this, input, channels.Values
    {
      && (input != null ==> input.Valid())
      && Registered(this, channels, flags)
    }

    /** The connection as a Protocol state. */
    ghost function State(): Protocol.ConnState
      reads this, input
    {
      Protocol.ConnState(
        if input == null then None else Some(Protocol.Cursor(input.data, input.pos)),
        out, flags, waiting, channelMax, frameMax, heartbeat, knownHosts)
    }

    /** __init__ up to its loop: the protocol header is written to a socket
        whose input is data; the attributes tune sets start at 0. */
    constructor(data: seq<byte>)
      ensures Valid() && channels == map[] && fresh(input)
      ensures State() == Protocol.Initial(data)
    {
      channels := map[];
      input := new Reader(data);
      out := Protocol.ProtocolHeader;
      waiting := true;
      channelMax, frameMax, heartbeat := 0, 0, 0;
      knownHosts := [];
      flags := map[];
    }

    /** out.write, which raises once _close_ok has cleared out. */
    method Send(bytes: seq<byte>) returns (r: Result<Protocol.Reply>)
      requires Valid()
      modifies this
      ensures Valid() && channels == old(channels) && input == old(input)
      ensures Protocol.Step(State(), r) == Protocol.Send(old(State()), bytes)
    {
      if input == null {
        return Err(NoTransport);
      }
      out := out + bytes;
      r := Ok(Protocol.NoReply);
    }

    /** send_method_frame: the packed frame is written; nothing is when
        packing raises. */
    method SendMethodFrame(channel: u16, classId: u16, methodId: u16, args: seq<byte>) returns (r: Result<Protocol.Reply>)
      requires Valid()
      modifies this
      ensures Valid() && channels == old(channels) && input == old(input)
      ensures Protocol.Step(State(), r) == Protocol.SendMethodFrame(old(State()), channel, classId, methodId, args)
    {
      var frame := PackMethodFrame(channel, classId, methodId, args);
      if frame.Err? {
        return Err(frame.error);
      }
      r := Send(frame.value);
    }

    /** open: sent by tune_ok; it does not wait for open_ok. */
    method Open(virtualHost: seq<byte>, capabilities: seq<byte>, insist: bool) returns (r: Result<Protocol.Reply>)
      requires Valid()
      modifies this
      ensures Valid() && channels == old(channels) && input == old(input)
      ensures Protocol.Step(State(), r) == Protocol.Open(old(State()), virtualHost, capabilities, insist)
    {
      var args := PackOpenArgs(virtualHost, capabilities, insist);
      if args.Err? {
        return Err(args.error);
      }
      r := SendMethodFrame(0, 10, 40, args.value);
    }

    /** start_ok. */
    method StartOk(clientProperties: seq<Field>, mechanism: seq<byte>, response: seq<byte>, locale: seq<byte>) returns (r: Result<Protocol.Reply>)
      requires Valid()
      modifies this
      ensures Valid() && channels == old(channels) && input == old(input)
      ensures Protocol.Step(State(), r) == Protocol.StartOk(old(State()), clientProperties, mechanism, response, locale)
    {
      var args := PackStartOkArgs(clientProperties, mechanism, response, locale);
      if args.Err? {
        return Err(args.error);
      }
      r := SendMethodFrame(0, 10, 11, args.value);
    }

    /** tune_ok, then open('/'). */
    method TuneOk(channelMax: u16, frameMax: u32, heartbeat: u16) returns (r: Result<Protocol.Reply>)
      requires Valid()
      modifies this
      ensures Valid() && channels == old(channels) && input == old(input)
      ensures Protocol.Step(State(), r) == Protocol.TuneOk(old(State()), channelMax, frameMax, heartbeat)
    {
      var args := PackTuneOkArgs(channelMax, frameMax, heartbeat);
      r := SendMethodFrame(0, 10, 31, args);
      if r.Err? {
        return;
      }
      r := Open(Ascii("/"), [], false);
    }

    /** close_ok. */
    method CloseOk() returns (r: Result<Protocol.Reply>)
      requires Valid()
      modifies this
      ensures Valid() && channels == old(channels) && input == old(input)
      ensures Protocol.Step(State(), r) == Protocol.CloseOk(old(State()))
    {
      r := SendMethodFrame(0, 10, 61, []);
    }

    /** start: the server's version, properties, mechanisms and locales are
        read (and only printed), then start_ok answers with the AMQPLAIN
        login guest/guest. */
    method Start(args: Reader) returns (r: Result<Protocol.Reply>)
      requires Valid() && args.Valid() && args.pos == 0 && args != input
      modifies this, args
      ensures Valid() && channels == old(channels) && input == old(input)
      ensures Protocol.Step(State(), r) == Protocol.Start(old(State()), args.data)
    {
      var fields := ReadStart(args);
      if fields.Err? {
        return Err(fields.error);
      }
      Protocol.LoginIsEntries();
      var login := PackResponse(Protocol.LoginTable);
      r := StartOk(Protocol.ClientProperties, Ascii("AMQPLAIN"), login.value, Ascii("en_US"));
    }

    /** tune's reads: each limit is stored as soon as it is read, and a
        frame_max of 0 becomes 131072. */
    method TuneLimits(args: Reader) returns (r: Result<Protocol.Reply>)
      requires Valid() && args.Valid() && args.pos == 0 && args != input
      modifies this, args
      ensures Valid() && channels == old(channels) && input == old(input)
      ensures Protocol.Step(State(), r) == Protocol.TuneLimits(old(State()), args.data)
    {
      Pow256Widths();
      var cm :- args.ReadShort();
      channelMax := cm;
      var fm :- args.ReadLong();
      frameMax := fm;
      var hb :- args.ReadShort();
      heartbeat := hb;
      if frameMax == 0 {
        frameMax := Protocol.DefaultFrameMax;
      }
      r := Ok(Protocol.NoReply);
    }

    /** tune: the limits, then tune_ok with heartbeat 0. */
    method Tune(args: Reader) returns (r: Result<Protocol.Reply>)
      requires Valid() && args.Valid() && args.pos == 0 && args != input
      modifies this, args
      ensures Valid() && channels == old(channels) && input == old(input)
      ensures Protocol.Step(State(), r) == Protocol.Tune(old(State()), args.data)
    {
      r := TuneLimits(args);
      if r.Err? {
        return;
      }
      r := TuneOk(channelMax, frameMax, 0);
    }

    /** open_ok: the known hosts are stored and the handshake is over. */
    method OpenOk(args: Reader) returns (r: Result<Protocol.Reply>)
      requires Valid() && args.Valid() && args.pos == 0 && args != input
      modifies this, args
      ensures Valid() && channels == old(channels) && input == old(input)
      ensures Protocol.Step(State(), r) == Protocol.OpenOk(old(State()), args.data)
    {
      var hosts :- args.ReadShortStr();
      knownHosts := hosts;
      waiting := false;
      r := Ok(Protocol.NoReply);
    }

    /** _close: the server's reply code, text, class and method are read
        (and only printed), then close_ok. */
    method ServerClose(args: Reader) returns (r: Result<Protocol.Reply>)
      requires Valid() && args.Valid() && args.pos == 0 && args != input
      modifies this, args
      ensures Valid() && channels == old(channels) && input == old(input)
      ensures Protocol.Step(State(), r) == Protocol.ServerClose(old(State()), args.data)
    {
      var replyCode :- args.ReadShort();
      var replyText :- args.ReadShortStr();
      var classId :- args.ReadShort();
      var methodId :- args.ReadShort();
      r := CloseOk();
    }

    /** _close_ok: input and out are cleared. */
    method ServerCloseOk() returns (r: Result<Protocol.Reply>)
      requires Valid()
      modifies this
      ensures Valid() && channels == old(channels) && input == null
      ensures Protocol.Step(State(), r) == Protocol.ServerCloseOk(old(State()))
    {
      input := null;
      r := Ok(Protocol.NoReply);
    }

    /** close: the request, then one wait for the server's answer, whose
        result is dropped. */
    method Close(replyCode: u16, replyText: seq<byte>, classId: u16, methodId: u16) returns (r: Result<Protocol.Reply>)
      requires Valid()
      modifies this, input, channels.Values
      ensures Valid() && channels == old(channels) && (input == old(input) || input == null)
      ensures Protocol.Step(State(), r) == Protocol.Close(old(State()), replyCode, replyText, classId, methodId)
    {
      var args := PackCloseArgs(replyCode, replyText, classId, methodId);
      r := Request(0, 10, 60, args);
      if r.Ok? {
        r := Ok(Protocol.NoReply);
      }
    }

    /** A request that awaits an answer: the method frame, then one wait,
        whose result is returned. */
    method Request(channel: u16, classId: u16, methodId: u16, args: Result<seq<byte>>) returns (r: Result<Protocol.Reply>)
      requires Valid()
      modifies this, input, channels.Values
      ensures Valid() && channels == old(channels) && (input == old(input) || input == null)
      ensures Protocol.Step(State(), r) == Protocol.Request(old(State()), channel, classId, methodId, args)
    {
      if args.Err? {
        return Err(args.error);
      }
      r := SendMethodFrame(channel, classId, methodId, args.value);
      if r.Err? {
        return;
      }
      r := Wait();
    }

    /** send_content: the header frame, then the body in frames of at most
        frame_max - 8 bytes. */
    method SendContent(channel: u16, classId: u16, weight: u16, bodySize: nat, properties: seq<byte>, body: seq<byte>) returns (r: Result<Protocol.Reply>)
      requires Valid() && (frameMax > 8 || body == [])
      modifies this
      ensures Valid() && channels == old(channels) && input == old(input)
      ensures Protocol.Step(State(), r) == Protocol.SendContent(old(State()), channel, classId, weight, bodySize, properties, body)
    {
      var header := PackHeaderFrame(channel, classId, weight, bodySize, properties);
      if header.Err? {
        return Err(header.error);
      }
      r := Send(header.value);
      if r.Err? {
        return;
      }
      var rest := body;
      while rest != []
        invariant Valid() && channels == old(channels) && input == old(input)
        invariant frameMax == old(frameMax) && (frameMax > 8 || rest == [])
        invariant r == Ok(Protocol.NoReply)
        invariant Protocol.SendBody(State(), channel, rest) == Protocol.SendContent(old(State()), channel, classId, weight, bodySize, properties, body)
        decreases |rest|
      {
        var n := Min(frameMax as int - 8, |rest|);
        var payload := rest[..n];
        rest := rest[n..];
        var frame := PackBodyFrame(channel, payload);
        r := Send(frame);
        if r.Err? {
          return;
        }
      }
    }

    /** wait: one frame is read; a method frame is dispatched and its result
        returned, any other frame is dropped. */
    method Wait() returns (r: Result<Protocol.Reply>)
      requires Valid()
      modifies this, input, channels.Values
      ensures Valid() && channels == old(channels) && (input == old(input) || input == null)
      ensures Protocol.Step(State(), r) == Protocol.Wait(old(State()))
    {
      if input == null {
        return Err(NoTransport);
      }
      var frame := ReadFrame(input);
      if frame.Err? {
        return Err(frame.error);
      }
      if frame.value.kind == FrameMethod {
        r := DispatchMethod(frame.value.channel, frame.value.payload);
      } else {
        r := Ok(Protocol.NoReply);
      }
    }

    /** dispatch_method: the class and method ids are split off and the
        arguments read by a reader of their own; class 10 goes to the
        connection, classes 20 and 30 to the registered channel the frame
        names, and any other class is dropped. */
    method DispatchMethod(channel: u16, payload: seq<byte>) returns (r: Result<Protocol.Reply>)
      requires Valid()
      modifies this, channels.Values
      ensures Valid() && channels == old(channels) && (input == old(input) || input == null)
      ensures Protocol.Step(State(), r) == Protocol.DispatchMethod(old(State()), channel, payload)
    {
      if |payload| < 4 {
        return Err(MethodFrameTooShort);
      }
      var classId := DecodeU16(payload[..2]);
      var methodId := DecodeU16(payload[2..4]);
      var args := new Reader(payload[4..]);
      if classId == 10 {
        r := DispatchConnection(methodId, args);
      } else if classId == 20 || classId == 30 {
        if channel !in channels {
          return Err(NoSuchChannel(channel));
        }
        r := channels[channel].DispatchMethod(classId, methodId, args);
      } else {
        r := Ok(Protocol.NoReply);
      }
    }

    /** __init__'s loop: wait until open_ok has cleared waiting. */
    method Handshake() returns (r: Result<Protocol.Reply>)
      requires Valid()
      modifies this, input, channels.Values
      ensures Valid() && channels == old(channels)
      ensures Protocol.Step(State(), r) == Protocol.Handshake(old(State()))
    {
      while waiting
        invariant Valid() && channels == old(channels) && (input == old(input) || input == null)
        invariant Protocol.Handshake(State()) == Protocol.Handshake(old(State()))
        decreases Protocol.Remaining(State())
      {
        r := Wait();
        if r.Err? {
          return;
        }
      }
      r := Ok(Protocol.NoReply);
    }

    /** channel(id): the registered channel, or a new closed one registered
        under id; either way it is opened. */
    method OpenChannel(id: u16) returns (ch: Channel, r: Result<Protocol.Reply>)
      requires Valid()
      modifies this, input, channels.Values
      ensures Valid() && channels == old(channels)[id := ch] && (input == old(input) || input == null)
      ensures id in old(channels) ==> ch == old(channels)[id]
      ensures id !in old(channels) ==> fresh(ch)
      ensures Protocol.Step(State(), r) == Protocol.OpenChannel(old(State()), id)
    {
      if id !in channels {
        var created := new Channel(this, id);
        channels := channels[id := created];
        flags := flags[id := false];
      }
      ch := channels[id];
      r := ch.Open([]);
    }

    /** dispatch_method_connection: an unknown method id is only printed. */
    method DispatchConnection(methodId: u16, args: Reader) returns (r: Result<Protocol.Reply>)
      requires Valid() && args.Valid() && args.pos == 0 && args != input
      modifies this, args
      ensures Valid() && channels == old(channels) && (input == old(input) || input == null)
      ensures Protocol.Step(State(), r) == Protocol.DispatchConnection(old(State()), methodId, args.data)
    {
      if methodId == 10 {
        r := Start(args);
      } else if methodId == 30 {
        r := Tune(args);
      } else if methodId == 41 {
        r := OpenOk(args);
      } else if methodId == 60 {
        r := ServerClose(args);
      } else if methodId == 61 {
        r := ServerCloseOk();
      } else {
        r := Ok(Protocol.NoReply);
      }
    }
  }

  /** A channel of a connection; its is_open changes when open_ok or
      close_ok arrives. */
  class Channel {
    const connection: Connection
    const channelId: u16
    var isOpen: bool

    /** Channel(connection, channel_id): closed; channel() registers it. */
    constructor(connection: Connection, channelId: u16)
      ensures this.connection == connection && this.channelId == channelId && !isOpen
    {
      this.connection := connection;
      this.channelId := channelId;
      isOpen := false;
    }

    /** The channel is registered under its id in its connection. */
    ghost predicate Valid()
      reads connection, connection.input, connection.channels.Values
    {
      connection.Valid() && channelId in connection.channels && connection.channels[channelId] == this
    }

    /** send_method_frame on this channel's id. */
    method SendMethodFrame(classId: u16, methodId: u16, args: seq<byte>) returns (r: Result<Protocol.Reply>)
      requires Valid()
      modifies connection
      ensures Valid() && connection.channels == old(connection.channels) && connection.input == old(connection.input)
      ensures Protocol.Step(connection.State(), r) == Protocol.SendMethodFrame(old(connection.State()), channelId, classId, methodId, args)
    {
      r := connection.SendMethodFrame(channelId, classId, methodId, args);
    }

    /** open: nothing at all when the channel is open already; otherwise
        channel.open with the out-of-band string, then one wait. */
    method Open(outOfBand: seq<byte>) returns (r: Result<Protocol.Reply>)
      requires Valid()
      modifies connection, connection.input, connection.channels.Values
      ensures Valid() && connection.channels == old(connection.channels)
      ensures connection.input == old(connection.input) || connection.input == null
      ensures Protocol.Step(connection.State(), r) == Protocol.ChannelOpen(old(connection.State()), channelId, outOfBand)
    {
      if isOpen {
        return Ok(Protocol.NoReply);
      }
      var args := PackOpenChannelArgs(outOfBand);
      r := connection.Request(channelId, 20, 10, args);
      if r.Ok? {
        r := Ok(Protocol.NoReply);
      }
    }

    /** close: channel.close, then one wait; is_open changes only when
        close_ok arrives. */
    method Close(replyCode: u16, replyText: seq<byte>, classId: u16, methodId: u16) returns (r: Result<Protocol.Reply>)
      requires Valid()
      modifies connection, connection.input, connection.channels.Values
      ensures Valid() && connection.channels == old(connection.channels)
      ensures connection.input == old(connection.input) || connection.input == null
      ensures Protocol.Step(connection.State(), r) == Protocol.ChannelClose(old(connection.State()), channelId, replyCode, replyText, classId, methodId)
    {
      var args := PackCloseArgs(replyCode, replyText, classId, methodId);
      r := connection.Request(channelId, 20, 40, args);
      if r.Ok? {
        r := Ok(Protocol.NoReply);
      }
    }

    /** access_request: the request, then one wait, whose result (the ticket
        when access_request_ok arrives) is returned. */
    method AccessRequest(realm: seq<byte>, exclusive: bool, passive: bool, active: bool, write: bool, read: bool) returns (r: Result<Protocol.Reply>)
      requires Valid()
      modifies connection, connection.input, connection.channels.Values
      ensures Valid() && connection.channels == old(connection.channels)
      ensures connection.input == old(connection.input) || connection.input == null
      ensures Protocol.Step(connection.State(), r) == Protocol.AccessRequest(old(connection.State()), channelId, realm, exclusive, passive, active, write, read)
    {
      var args := PackAccessRequestArgs(realm, exclusive, passive, active, write, read);
      r := connection.Request(channelId, 30, 10, args);
    }

    /** basic_publish: the method frame, then the message as content of
        class 60 with weight 0. */
    method BasicPublish(msg: Content, ticket: u16, exchange: seq<byte>, routingKey: seq<byte>, mandatory: bool, immediate: bool) returns (r: Result<Protocol.Reply>)
      requires Valid() && (connection.frameMax > 8 || msg.body == [])
      modifies connection
      ensures Valid() && connection.channels == old(connection.channels) && connection.input == old(connection.input)
      ensures Protocol.Step(connection.State(), r) == Protocol.BasicPublish(old(connection.State()), channelId, msg.body, ticket, exchange, routingKey, mandatory, immediate)
    {
      var args := PackBasicPublishArgs(ticket, exchange, routingKey, mandatory, immediate);
      if args.Err? {
        return Err(args.error);
      }
      r := SendMethodFrame(60, 40, args.value);
      if r.Err? {
        return;
      }
      var properties, body := msg.Serialize();
      r := connection.SendContent(channelId, 60, 0, |body|, properties, body);
    }

    /** open_ok: the channel is open. */
    method OpenOk() returns (r: Result<Protocol.Reply>)
      requires Valid()
      modifies this, connection
      ensures Valid() && connection.channels == old(connection.channels) && connection.input == old(connection.input)
      ensures Protocol.Step(connection.State(), r) == Protocol.Step(old(connection.State()).(channels := old(connection.State()).channels[channelId := true]), Ok(Protocol.NoReply))
    {
      isOpen := true;
      connection.flags := connection.flags[channelId := true];
      r := Ok(Protocol.NoReply);
    }

    /** close_ok: the channel is closed. */
    method CloseOk() returns (r: Result<Protocol.Reply>)
      requires Valid()
      modifies this, connection
      ensures Valid() && connection.channels == old(connection.channels) && connection.input == old(connection.input)
      ensures Protocol.Step(connection.State(), r) == Protocol.Step(old(connection.State()).(channels := old(connection.State()).channels[channelId := false]), Ok(Protocol.NoReply))
    {
      isOpen := false;
      connection.flags := connection.flags[channelId := false];
      r := Ok(Protocol.NoReply);
    }

    /** access_request_ok: the ticket is returned. */
    method AccessRequestOk(args: Reader) returns (r: Result<Protocol.Reply>)
      requires Valid() && args.Valid() && args.pos == 0 && args != connection.input
      modifies args
      ensures Protocol.Step(connection.State(), r) == Protocol.AccessRequestOk(old(connection.State()), args.data)
    {
      Pow256Widths();
      var ticket :- args.ReadShort();
      r := Ok(Protocol.Ticket(ticket));
    }

    /** dispatch_method: open_ok, close_ok and access_request_ok; any other
        method is only printed. */
    method DispatchMethod(classId: u16, methodId: u16, args: Reader) returns (r: Result<Protocol.Reply>)
      requires Valid() && args.Valid() && args.pos == 0 && args != connection.input
      modifies this, connection, args
      ensures Valid() && connection.channels == old(connection.channels) && connection.input == old(connection.input)
      ensures Protocol.Step(connection.State(), r) == Protocol.ChannelDispatch(old(connection.State()), channelId, classId, methodId, args.data)
    {
      if classId == 20 && methodId == 11 {
        r := OpenOk();
      } else if classId == 20 && methodId == 41 {
        r := CloseOk();
      } else if classId == 30 && methodId == 11 {
        r := AccessRequestOk(args);
      } else {
        r := Ok(Protocol.NoReply);
      }
    }
  }

  /** A message: its body, as bytes. */
  class Content {
    const body: seq<byte>

    constructor(body: seq<byte>)
      ensures this.body == body
    {
      this.body := body;
    }

    /** serialize: no properties, written as a zero short, and the body. */
    method Serialize() returns (properties: seq<byte>, content: seq<byte>)
      ensures (properties, content) == Protocol.Serialize(body)
    {
      var args := new Writer();
      args.WriteShort(0);
      assert args.out == U16(0);
      properties := args.GetValue();
      content := body;
      assert properties == Protocol.Serialize(body).0;
    }
  }

  /** Connection(...): the protocol header, then the handshake. */
  method Connect(data: seq<byte>) returns (connection: Connection, r: Result<Protocol.Reply>)
    ensures fresh(connection) && connection.Valid()
    ensures Protocol.Step(connection.State(), r) == Protocol.Connect(data)
  {
    connection := new Connection(data);
    r := connection.Handshake();
  }
}
