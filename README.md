# amqp.py wire core in Dafny

This project models the wire-level core of `amqp.py`, an early AMQP 0-8 client in Python. The model has four parts:

- The field codec. `_AMQPReader` reads big-endian integers, short and long strings and field tables. `_AMQPWriter` writes them, packing booleans eight to a byte.
- The frame codec. `send_method_frame` and `send_content` write frames. `wait` and `dispatch_method` read one inbound frame, check its 0xCE end octet and route it.
- The `Connection` handshake state machine: `start`, `tune`, `open_ok`, `_close`, `_close_ok` and the requests `open`, `close` and `channel`.
- The `Channel` state machine (`open`, `close`, `access_request`, `basic_publish` and their answers), plus `Content.serialize`.

The socket is replaced by two byte sequences. The inbound side is the bytes the server sends, read through a position. The outbound side is the log of every byte the client writes.

The modules:

- `Wire` (wire.dfy) holds bytes, fixed-width integers, the error kinds and big-endian encoding.
- `Fields` (fields.dfy) holds the field codec as functions: positional parsers, encoders, the bit packing of `write_boolean`, and the round-trip lemmas.
- `Codec` (codec.dfy) holds the classes `Reader` and `Writer`. They mirror `_AMQPReader` and `_AMQPWriter` field for field, and every method is proved to compute the `Fields` function of its input.
- `Framing` (framing.dfy) holds the frame envelope: method, header and body frames, `wait`'s parse, and body segmentation.
- `Protocol` (protocol.dfy) holds the connection and channel state machines as functions on a state value, `ConnState`. Each operation returns the new state and what it returned or raised.
- `Properties` (properties.dfy) holds what the state machines promise: routing, the handshake, the channel lifecycle, argument layouts and content segmentation.
- `Client` (client.dfy) holds the classes `Connection`, `Channel` and `Content`. Their methods update fields in place, as the Python methods do, and each is proved to leave exactly the state, and return exactly the result, of the matching `Protocol` function.

A raised exception is modelled as an `Err` result. The error kinds are:

- `Truncated`: an `unpack` with too few bytes;
- `StringTooLong`: `write_shortstr` over 255 bytes;
- `OutOfRange`: a `pack` of a value that does not fit its field;
- `FramingError`: a frame not ended by 0xCE;
- `MethodFrameTooShort`;
- `NoSuchChannel`: the `KeyError` of `self.channels[channel]`;
- `NoTransport`: writing or reading after `_close_ok` set `input` and `out` to None;
- `UnsupportedTag`.

The state reached before the raise is kept. In particular, a read that fails still consumes what it read.

## Model

| member | source | states |
|---|---|---|
| Wire.DecodeEncode | amqp.py:50-60 | an integer below 256^w written in w big-endian bytes (pack '>B/>H/>I/>Q') unpacks to itself |
| Wire.EncodeDecode | amqp.py:50-60 | any w bytes unpacked and packed again give the same bytes |
| Wire.EncodeUIntDigit | amqp.py:126-136 | byte i of a w-byte big-endian integer is digit w-1-i in base 256 |
| Wire.EncodeUInt | amqp.py:122-136 | pack writes a w-byte integer in exactly w bytes |
| Wire.DecodeUInt | amqp.py:50-60 | unpack of w bytes is below 256^w |
| Fields.ParseUInt | amqp.py:50-60 | read_octet/short/long/longlong succeeds exactly when w bytes are left, consumes exactly w and yields a value below 256^w |
| Fields.ParseShortStr | amqp.py:62-64 | read_shortstr succeeds exactly when the length byte is there; it yields the bytes after it and ends after the declared length, or at the end of the input when that comes first |
| Fields.ParseLongStr | amqp.py:66-68 | read_longstr succeeds exactly when 4 length bytes are there; it yields the bytes after them and ends after the declared length, or at the end of the input when that comes first |
| Fields.ParseTable | amqp.py:70-91 | a table that reads ends exactly after its 4-byte length and the declared number of bytes |
| Fields.TableEnd | amqp.py:70-72 | read_table leaves the input within the data, whether the table reads or not |
| Fields.ParseTableRegion | amqp.py:70-74 | (helper, one unfolding) read_table's result is its loop over the region of the declared length, which ends where the region ends |
| Fields.ParseFields | amqp.py:74-90 | the loop only succeeds when the region holds the declared length |
| Fields.ParseFieldsError | amqp.py:74-90 | (helper, one unfolding) an entry that fails to read fails the whole table with its error |
| Fields.ParseFieldsStep | amqp.py:74-90 | (helper, one unfolding) an entry that reads is stored with result[name] = val and the loop continues after it |
| Fields.ParseEntry | amqp.py:75-89 | an entry that reads consumes at least its key's length byte and its tag byte |
| Fields.PutLookup | amqp.py:90 | after result[name] = val, name maps to val and every other key keeps its value |
| Fields.PutFresh | amqp.py:90 | a new key is added after the existing ones |
| Fields.EncodeShortStr | amqp.py:138-145 | write_shortstr fails exactly when the string is over 255 bytes, and otherwise writes len + 1 bytes |
| Fields.EncodeLongStr | amqp.py:147-152 | write_longstr fails exactly when the length does not fit 4 bytes, and otherwise writes len + 4 bytes |
| Fields.EncodeValue | amqp.py:159-177 | a written value is at least 5 bytes and starts with its tag, 'S' for a string and 'F' for a table |
| Fields.EncodeField | amqp.py:157-177 | an entry whose key is over 255 bytes fails with StringTooLong; a written entry starts with the key's length and is at least key + 6 bytes |
| Fields.EncodeFields | amqp.py:156-177 | the entries are written exactly when every entry can be written |
| Fields.EncodeTable | amqp.py:154-180 | an entry that cannot be written fails the table; a written table is at least its 4 length bytes |
| Fields.EncodeFieldsSplit | amqp.py:157-177 | writing the entries a + b writes a, then b; the first failing entry's error is the table's |
| Fields.EncodeFieldsPrefix | amqp.py:157-177 | one pass of write_table's loop appends entry i's bytes, or fails the table with entry i's error |
| Fields.UIntRoundTrip | amqp.py:50-60 | an integer written in w bytes reads back as itself, consuming exactly w bytes |
| Fields.ShortStrRoundTrip | amqp.py:138-145 | write_shortstr refuses exactly the strings longer than 255 bytes; a shorter one reads back as itself with read_shortstr after 1 + len bytes |
| Fields.LongStrRoundTrip | amqp.py:147-152 | write_longstr's output reads back as the same bytes with read_longstr, after 4 + len bytes |
| Fields.TableRoundTrip | amqp.py:154-180 | read_table of write_table's output (string and table values, unique keys) is the same entries in the same order, ending right after the written bytes |
| Fields.EntryRoundTrip | amqp.py:157-177 | one written entry reads back as itself and ends right after its bytes |
| Fields.LongStrEntryRoundTrip | amqp.py:159-163 | an 'S' entry reads back as the same key and long string |
| Fields.TableEntryRoundTrip | amqp.py:175-177 | an 'F' entry reads back as the same key and nested table |
| Fields.FieldsRoundTrip | amqp.py:74-90 | read_table's loop over written entries whose keys are new appends exactly those entries, in order |
| Fields.PackByte | amqp.py:114-120 | up to 8 booleans pack into a value below 2^count |
| Fields.Group | amqp.py:114-120 | every group of booleans sharing a byte has 1 to 8 members |
| Fields.PackBits | amqp.py:114-120 | k booleans pack into ceil(k / 8) bytes |
| Fields.PackByteBit | amqp.py:114-120 | bit i of a packed byte is boolean i, and every bit past the last boolean is 0 |
| Fields.PackBitsLayout | amqp.py:114-120 | boolean i sits at bit i mod 8 of byte i div 8, and unused bits are zero |
| Fields.PackBitsSnoc | amqp.py:114-120 | one more boolean starts a new byte when the count is a multiple of 8, and otherwise is added into the still-clear bit count mod 8 of the last byte |
| Fields.PackBitsPush | amqp.py:116-119 | write_boolean's step: a zero byte is appended when shift is 0, and the boolean's weight is added at bit shift of the last byte |
| Fields.PackBitsFullGroups | amqp.py:114-120 | one more boolean leaves every complete byte untouched |
| Fields.PackBitsOr | amqp.py:119 | the new packing is the old with b << shift or-ed into the last byte |
| Fields.BitOrFreshBit | amqp.py:119 | or-ing in a bit above every bit set adds its weight |
| Codec.Reader.constructor | amqp.py:34-45 | a reader over a byte string starts at position 0 |
| Codec.Reader.Read | amqp.py:47-48 | read(n) returns at most n bytes from the position, fewer at the end, and advances past them |
| Codec.Reader.ReadUInt | amqp.py:50-60 | the result is ParseUInt's; the position moves past the integer, or to the end of the input when it is cut short |
| Codec.Reader.ReadOctet | amqp.py:50-51 | read_octet is ParseUInt on 1 byte |
| Codec.Reader.ReadShort | amqp.py:53-54 | read_short is ParseUInt on 2 bytes |
| Codec.Reader.ReadLong | amqp.py:56-57 | read_long is ParseUInt on 4 bytes |
| Codec.Reader.ReadLongLong | amqp.py:59-60 | read_longlong is ParseUInt on 8 bytes |
| Codec.Reader.ReadShortStr | amqp.py:62-64 | the result and new position are ParseShortStr's |
| Codec.Reader.ReadLongStr | amqp.py:66-68 | the result and new position are ParseLongStr's |
| Codec.Reader.ReadTable | amqp.py:70-91 | the result is ParseTable's, and the input ends after the length and region whether the table reads or not |
| Codec.Reader.ReadEntry | amqp.py:75-89 | one loop pass returns ParseEntry's entry and ends where ParseEntry ends |
| Codec.Writer.constructor | amqp.py:94-97 | a new writer has written nothing and has no pending booleans |
| Codec.Writer.FlushBits | amqp.py:99-104 | the packed bytes of the pending booleans go to out, and bits and bitcount are emptied |
| Codec.Writer.GetValue | amqp.py:106-108 | getvalue returns everything written, pending booleans included, and flushes them |
| Codec.Writer.Write | amqp.py:110-112 | the pending booleans, then the raw bytes, are appended |
| Codec.Writer.WriteBoolean | amqp.py:114-120 | the boolean joins the pending ones, and nothing reaches out |
| Codec.Writer.WriteOctet | amqp.py:122-124 | the pending booleans, then one byte |
| Codec.Writer.WriteShort | amqp.py:126-128 | the pending booleans, then 2 big-endian bytes |
| Codec.Writer.WriteLong | amqp.py:130-132 | the pending booleans, then 4 big-endian bytes |
| Codec.Writer.WriteLongLong | amqp.py:134-136 | the pending booleans, then 8 big-endian bytes |
| Codec.Writer.WriteShortStr | amqp.py:138-145 | after the flush, the length byte and the bytes are appended; a string over 255 bytes fails with StringTooLong and appends nothing more |
| Codec.Writer.WriteLongStr | amqp.py:147-152 | after the flush, 4 length bytes and the bytes are appended; a length that does not fit 4 bytes fails and appends nothing more |
| Codec.Writer.WriteTable | amqp.py:154-180 | after the flush, EncodeTable's bytes are appended (entries in order, after their 4-byte length); a failing entry or length fails with its error and appends nothing more |
| Codec.Writer.WriteField | amqp.py:157-177 | one loop pass appends EncodeField's bytes, or fails with its error |
| Framing.ParseFrame | amqp.py:351-359 | a frame that reads consumes 8 bytes plus its payload and ends where FrameAfter says |
| Framing.FrameAfter | amqp.py:351-359 | wait's reads leave the input within the data, whether the frame is good or not |
| Framing.FrameRoundTrip | amqp.py:351-359 | a written frame is 8 + len(payload) bytes and is read back by wait as itself |
| Framing.FrameHeaderFields | amqp.py:351-353 | the 7 envelope bytes read back as type, channel and size |
| Framing.FramingErrorDetected | amqp.py:357-359 | a frame whose byte after the payload is not 0xCE raises a framing error naming that byte, after consuming it |
| Framing.EncodeFrame | amqp.py:297-306 | a frame is 8 + len(payload) bytes, starting with its type and ending with 0xCE |
| Framing.MethodFrame | amqp.py:311-323 | send_method_frame fails exactly when len(args) + 4 does not fit 4 bytes, and otherwise writes a type-1 frame of len(args) + 12 bytes |
| Framing.ParseMethod | amqp.py:364-368 | dispatch_method refuses a payload under 4 bytes; otherwise the class id, method id and rest it splits off, written back, give the payload |
| Framing.MethodFrameLayout | amqp.py:311-326 | send_method_frame writes octet 1, the channel, len(args) + 4, class id, method id, args and 0xCE: len(args) + 12 bytes |
| Framing.MethodFrameRoundTrip | amqp.py:311-368 | a frame from send_method_frame is read by wait and split by dispatch_method back into channel, class, method and arguments |
| Framing.MethodPayload | amqp.py:365-368 | dispatch_method splits a payload into class id, method id and the rest |
| Framing.HeaderFrameLayout | amqp.py:278-290 | the header frame is type 2, the channel, size len(properties) + 12, class id, weight, body size, the properties and 0xCE |
| Framing.HeaderFrame | amqp.py:278-291 | the header frame fails exactly when len(properties) + 12 does not fit 4 bytes, and otherwise is a type-2 frame of len(properties) + 20 bytes |
| Framing.Chunks | amqp.py:295-296 | send_content's loop cuts no payload from an empty body and otherwise only payloads of 1 to frame_max - 8 bytes |
| Framing.BodyFrames | amqp.py:295-306 | the body frames take the body's bytes plus 8 per frame |
| Framing.ChunksConcat | amqp.py:295-296 | the payloads send_content's loop cuts put together are exactly the body |
| Framing.ChunksCount | amqp.py:295-296 | there are ceil(len(body) / (frame_max - 8)) payloads, none for an empty body |
| Framing.ChunksSizes | amqp.py:295-296 | every payload but the last holds exactly frame_max - 8 bytes |
| Protocol.Initial | amqp.py:189-205 | the state after __init__ has written the protocol header is well formed |
| Protocol.Send | amqp.py:325-326 | writing never touches the transport or the channels |
| Protocol.SendMethodFrame | amqp.py:311-326 | send_method_frame never touches the transport or the channels |
| Protocol.SendArgs | amqp.py:311-326 | nor does sending arguments whose packing may have failed |
| Protocol.SendContent | amqp.py:278-308 | send_content never touches the transport or the channels |
| Protocol.SendBody | amqp.py:295-308 | nor does its loop |
| Protocol.Open | amqp.py:244-249 | open only writes |
| Protocol.OpenArgs | amqp.py:244-248 | open's arguments fail exactly when a string is over 255 bytes; otherwise they are both strings, their length bytes and a last octet 1 or 0 for insist |
| Protocol.CloseArgs | amqp.py:220-225 | close's arguments fail exactly when the reply text is over 255 bytes, and otherwise take len(text) + 7 bytes |
| Protocol.Close | amqp.py:220-227 | close keeps the registered channels and returns None, or raises StringTooLong before writing when the text is over 255 bytes |
| Protocol.ParseStart | amqp.py:256-261 | start's reads need at least 14 bytes and give versions below 256; fewer than 2 bytes raise Truncated |
| Protocol.StartOkArgs | amqp.py:270-275 | start_ok's arguments are written exactly when the table, both short strings and the long string can be |
| Protocol.TuneOkArgs | amqp.py:338-342 | tune_ok's arguments are 8 bytes that unpack to the channel_max, frame_max and heartbeat given |
| Protocol.ServerCloseOk | amqp.py:240-242 | _close_ok clears the transport and changes nothing else |
| Protocol.OpenChannel | amqp.py:213-218 | channel(id) leaves id registered and the other ids as they were; the reply is ch.open()'s None, and the Channel object that channel() returns is Client.Connection.OpenChannel's ch |
| Protocol.ChannelOpen | amqp.py:442-447 | Channel.open keeps the registered ids and returns None; an out-of-band string over 255 bytes on a closed channel raises before writing |
| Protocol.ChannelClose | amqp.py:429-436 | Channel.close keeps the registered ids and returns None, or raises StringTooLong before writing |
| Protocol.AccessRequestArgs | amqp.py:401-408 | access_request's arguments fail exactly when the realm is over 255 bytes, and otherwise take len(realm) + 2 bytes |
| Protocol.AccessRequest | amqp.py:401-410 | access_request keeps the registered ids, and a realm over 255 bytes raises before writing |
| Protocol.BasicPublishArgs | amqp.py:417-424 | basic_publish's arguments fail exactly when the exchange or routing key is over 255 bytes, and otherwise take both lengths + 5 bytes |
| Protocol.BasicPublish | amqp.py:417-427 | basic_publish keeps the transport and the channels, and an exchange or routing key over 255 bytes raises before writing |
| Protocol.Serialize | amqp.py:476-480 | the packed properties are a zero short and the body is unchanged |
| Protocol.Request | amqp.py:226-227 | a request keeps the registered ids; arguments that failed to pack raise before anything is written |
| Protocol.Handshake | amqp.py:205-207 | __init__'s loop only ends without raising once waiting is clear and returns None; started while waiting, it has read at least one 8-byte frame envelope by then |
| Protocol.Connect | amqp.py:189-207 | a connection starts with no channels, and a handshake that completes leaves waiting clear and has read at least 8 bytes |
| Protocol.Start | amqp.py:256-268 | start only reads its arguments and writes |
| Protocol.StartOk | amqp.py:270-276 | start_ok only writes |
| Protocol.TuneLimits | amqp.py:328-334 | tune's reads change only the limits |
| Protocol.Tune | amqp.py:328-336 | tune keeps the transport and the channels |
| Protocol.TuneOk | amqp.py:338-344 | tune_ok only writes |
| Protocol.OpenOk | amqp.py:251-254 | open_ok keeps the transport and the channels |
| Protocol.ServerClose | amqp.py:229-235 | _close keeps the transport and the channels |
| Protocol.CloseOk | amqp.py:237-238 | close_ok only writes |
| Protocol.DispatchConnection | amqp.py:376-387 | a connection method keeps the channels, and the transport unless _close_ok clears it |
| Protocol.ChannelDispatch | amqp.py:453-462 | a channel method keeps the transport and which channels are registered |
| Protocol.AccessRequestOk | amqp.py:412-415 | access_request_ok keeps the transport and the channels |
| Protocol.Route | amqp.py:370-374 | routing keeps the registered channel ids, and the transport unless _close_ok clears it |
| Protocol.DispatchMethod | amqp.py:364-374 | so does dispatch_method |
| Protocol.Wait | amqp.py:346-362 | wait keeps the read position within the data and the registered channel ids, and a wait that succeeds consumes at least the 8 envelope bytes |
| Protocol.LoginIsEntries | amqp.py:264-266 | the login response is exactly the login table's entries, 35 bytes: the 4 bytes cut off are the table's length |
| Properties.WaitReadsMethod | amqp.py:346-374 | a method frame at the read position is consumed whole, and its class, method and arguments are routed for its channel |
| Properties.WaitRoutes | amqp.py:361-374 | a method frame that parses is routed by its class and method ids |
| Properties.WaitParsed | amqp.py:361-362 | (helper, one unfolding) wait hands a good method frame to dispatch_method |
| Properties.DispatchSplit | amqp.py:367-368 | dispatch_method routes on the payload's first two shorts |
| Properties.WaitSkipsOtherFrames | amqp.py:361-362 | a frame of any other type is consumed and dropped, with no other change |
| Properties.WaitFramingError | amqp.py:357-359 | a frame not closed by 0xCE raises a framing error naming the byte, after consuming it, with no other change |
| Properties.ShortPayloadRefused | amqp.py:365-366 | a method payload shorter than 4 bytes raises and changes nothing |
| Properties.UnknownConnectionMethod | amqp.py:376-387 | a connection method id without a handler changes nothing |
| Properties.UnknownChannelMethod | amqp.py:453-462 | a class 20 or 30 method without a handler changes nothing |
| Properties.OtherClassIgnored | amqp.py:370-374 | a method of a class other than 10, 20 and 30 changes nothing |
| Properties.UnregisteredChannel | amqp.py:372-374 | a class 20 or 30 method for a channel that is not registered raises and changes nothing |
| Properties.RouteToChannel | amqp.py:372-374 | classes 20 and 30 go to the registered channel the frame names |
| Properties.TuneReplies | amqp.py:328-344 | tune stores channel_max, frame_max and heartbeat, turns a frame_max of 0 into 131072, and writes TuneOk(channel_max, frame_max, 0) then Open('/', '', 0) |
| Properties.OpenRoot | amqp.py:244-249 | open('/')'s arguments are the short strings '/' and '' and a 0 insist octet |
| Properties.OpenOkEndsWaiting | amqp.py:251-254 | open_ok stores the known hosts and clears waiting |
| Properties.CloseOkClearsTransport | amqp.py:240-242 | after _close_ok there is no transport: every later write or wait raises and changes nothing |
| Properties.CloseSends | amqp.py:220-227 | close sends connection.close (10, 60) on channel 0 with the reply code, the reply text, the class and the method, then waits once and returns None; a reply text over 255 bytes raises before anything is written |
| Properties.ServerCloseAnswers | amqp.py:229-238 | _close reads the reply code, text, class and method the server wrote and answers with close_ok (10, 61) and empty arguments |
| Properties.ServerCloseOutcome | amqp.py:229-238 | _close either answers with close_ok or raises Truncated having written nothing, and it raises Truncated on fewer than 2 argument bytes |
| Properties.StartAnswers | amqp.py:256-276 | start answers any start it can read with start_ok carrying the client properties, 'AMQPLAIN', the login entries and 'en_US' |
| Properties.StartOkFits | amqp.py:264-276 | start_ok's arguments always pack and fit a method frame |
| Properties.ChannelOpenWhenOpen | amqp.py:442-443 | Channel.open of an open channel writes and reads nothing |
| Properties.OpenChannelRegisters | amqp.py:213-218 | channel(id) registers id when it is new and keeps every registered channel; an open registered channel is reused without any exchange |
| Properties.ChannelOpenSends | amqp.py:442-447 | Channel.open of a closed channel sends channel.open (20, 10) with the out-of-band short string on its channel, then waits once |
| Properties.ChannelOpenOkExchange | amqp.py:449-456 | a channel.open_ok frame next marks its channel open |
| Properties.ChannelCloseSends | amqp.py:429-436 | Channel.close sends channel.close (20, 40) with the reply code and text and the failing class and method, then waits once |
| Properties.ChannelCloseOkExchange | amqp.py:438-458 | a channel.close_ok frame next marks its channel closed |
| Properties.AccessRequestSends | amqp.py:401-410 | access_request sends (30, 10) with its packed arguments, then returns what one wait returns |
| Properties.SendArgsOk | amqp.py:311-326 | arguments that packed are sent in one method frame |
| Properties.AccessExchange | amqp.py:412-415 | an access_request_ok frame next returns the ticket its arguments start with |
| Properties.TicketParse | amqp.py:412-413 | the ticket the server writes reads back with read_short |
| Properties.AccessRequestLayout | amqp.py:401-409 | access_request's arguments are the realm short string, then one byte with exclusive, passive, active, write and read in bits 0 to 4 |
| Properties.PackFive | amqp.py:404-408 | five booleans pack into one byte, the first in bit 0 |
| Properties.PackOneByte | amqp.py:114-120 | up to eight booleans pack into one byte |
| Properties.PackByteCons | amqp.py:114-120 | the first boolean of a byte is its bit 0, the rest shift up by one |
| Properties.BasicPublishLayout | amqp.py:417-425 | basic_publish's arguments are the ticket, the exchange and routing key short strings, then one byte with mandatory and immediate in bits 0 and 1 |
| Properties.SendContentFrames | amqp.py:278-308 | send_content writes the header frame, then ceil(len(body) / (frame_max - 8)) body frames of 1 to frame_max - 8 bytes whose payloads put together are the body |
| Properties.SendBodyFrames | amqp.py:295-308 | send_content's loop writes one body frame per chunk, in order |
| Properties.SendBodyUnfold | amqp.py:295-308 | (helper, one unfolding) one pass of the loop writes the first frame_max - 8 bytes as a body frame and continues on the rest |
| Properties.BodyFramesUnfold | amqp.py:297-306 | (helper, one unfolding) the body frames are the first chunk's frame, then the rest's |
| Properties.PublishFrames | amqp.py:417-427 | basic_publish writes its method frame, a header frame of class 60, weight 0, size len(body) and properties [0, 0], then the body frames |
| Properties.PublishSends | amqp.py:417-427 | basic_publish sends its method frame, then send_content with class 60, weight 0, size len(body) and the properties packed as [0, 0] |
| Properties.HandshakeTurns | amqp.py:205-207 | three successful waits, the first two leaving waiting set and the third clearing it, are the whole of __init__'s loop: it stops after the third, in the state that wait left |
| Properties.StartTurn | amqp.py:256-276 | with a start frame next, one turn of the loop consumes it and writes start_ok, and the loop goes on from there |
| Properties.TuneTurn | amqp.py:328-344 | with a tune frame next, one turn of the loop consumes it, stores its limits (frame_max 0 becomes 131072) and writes tune_ok and open('/'), and the loop goes on from there |
| Properties.OpenOkTurn | amqp.py:251-254 | with an open_ok frame next, the loop consumes it, stores the short string at the start of its arguments as the known hosts, and stops |
| Properties.HandshakeRuns | amqp.py:206-207 | (helper, one unfolding) while waiting, a successful wait is one turn of the loop |
| Properties.HandshakeDone | amqp.py:206-207 | (helper, one unfolding) the loop stops once waiting is false |
| Properties.StartExchange | amqp.py:256-276 | a start frame next is consumed and answered with the start_ok frame |
| Properties.TuneExchange | amqp.py:328-344 | a tune frame next is consumed, its limits stored (frame_max 0 becomes 131072), and answered with tune_ok and open('/') |
| Properties.OpenOkExchange | amqp.py:251-254 | an open_ok frame next ends the handshake, keeping the known hosts |
| Client.ReadFrame | amqp.py:351-359 | wait's reads on the connection's reader return ParseFrame's frame and leave the reader where FrameAfter says |
| Client.PackMethodFrame | amqp.py:311-323 | send_method_frame's writer produces exactly MethodFrame's bytes, or OutOfRange when len(args) + 4 does not fit 4 bytes |
| Client.PackCloseArgs | amqp.py:221-225 | close's writer produces exactly CloseArgs |
| Client.PackOpenArgs | amqp.py:245-248 | open's writer produces exactly OpenArgs |
| Client.PackStartOkArgs | amqp.py:271-275 | start_ok's writer produces exactly StartOkArgs, or the first field's error |
| Client.PackTuneOkArgs | amqp.py:339-342 | tune_ok's writer produces exactly TuneOkArgs |
| Client.PackResponse | amqp.py:264-266 | start's login writer produces the table's bytes without their first 4 |
| Client.PackHeaderFrame | amqp.py:279-291 | send_content's header writer fails with OutOfRange exactly when the size or body size does not fit, and otherwise produces HeaderFrame's bytes |
| Client.WriteHeaderFrame | amqp.py:279-291 | with sizes that fit, the header writer produces exactly HeaderFrame's bytes |
| Client.PackBodyFrame | amqp.py:297-306 | one body frame is type 3, the channel, the payload's length, the payload and 0xCE |
| Client.PackOpenChannelArgs | amqp.py:444-445 | Channel.open's writer produces the out-of-band short string |
| Client.PackAccessRequestArgs | amqp.py:402-408 | access_request's writer produces exactly AccessRequestArgs |
| Client.PackBasicPublishArgs | amqp.py:419-424 | basic_publish's writer produces exactly BasicPublishArgs |
| Client.ReadStart | amqp.py:257-261 | start's reads return ParseStart's fields |
| Client.Connection.constructor | amqp.py:189-205 | a new connection has no channels, a fresh reader over the received bytes, and the state of Protocol.Initial: only the protocol header written |
| Client.Connection.Send | amqp.py:325-326 | appends to out, or raises without a transport; the state is Protocol.Send's |
| Client.Connection.SendMethodFrame | amqp.py:311-326 | the new state and result are Protocol.SendMethodFrame's |
| Client.Connection.Open | amqp.py:244-249 | the new state and result are Protocol.Open's |
| Client.Connection.StartOk | amqp.py:270-276 | the new state and result are Protocol.StartOk's |
| Client.Connection.TuneOk | amqp.py:338-344 | the new state and result are Protocol.TuneOk's |
| Client.Connection.CloseOk | amqp.py:237-238 | the new state and result are Protocol.CloseOk's |
| Client.Connection.Start | amqp.py:256-268 | the new state and result are Protocol.Start's |
| Client.Connection.TuneLimits | amqp.py:328-334 | the limits stored field by field are Protocol.TuneLimits's |
| Client.Connection.Tune | amqp.py:328-336 | the new state and result are Protocol.Tune's |
| Client.Connection.OpenOk | amqp.py:251-254 | the new state and result are Protocol.OpenOk's |
| Client.Connection.ServerClose | amqp.py:229-235 | the new state and result are Protocol.ServerClose's |
| Client.Connection.ServerCloseOk | amqp.py:240-242 | input is cleared; the state is Protocol.ServerCloseOk's |
| Client.Connection.Close | amqp.py:220-227 | the new state and result are Protocol.Close's |
| Client.Connection.Request | amqp.py:226-227 | a request then one wait: the state and result are Protocol.Request's |
| Client.Connection.SendContent | amqp.py:278-308 | the header write and the loop over the body leave exactly Protocol.SendContent's state and result |
| Client.Connection.Wait | amqp.py:346-362 | the new state and result are Protocol.Wait's; the channel objects stay registered |
| Client.Connection.DispatchMethod | amqp.py:364-374 | the new state and result are Protocol.DispatchMethod's |
| Client.Connection.Handshake | amqp.py:205-207 | __init__'s loop leaves exactly Protocol.Handshake's state and result |
| Client.Connection.OpenChannel | amqp.py:213-218 | the registered channel is reused, or a fresh one registered under id; the state and result are Protocol.OpenChannel's |
| Client.Connection.DispatchConnection | amqp.py:376-387 | the new state and result are Protocol.DispatchConnection's |
| Client.Channel.constructor | amqp.py:391-395 | a new channel belongs to its connection, has its id and is not open |
| Client.Channel.SendMethodFrame | amqp.py:464-465 | the connection's send_method_frame on the channel's id |
| Client.Channel.Open | amqp.py:442-447 | the new state and result are Protocol.ChannelOpen's |
| Client.Channel.Close | amqp.py:429-436 | the new state and result are Protocol.ChannelClose's |
| Client.Channel.AccessRequest | amqp.py:401-410 | the new state and result are Protocol.AccessRequest's |
| Client.Channel.BasicPublish | amqp.py:417-427 | the new state and result are Protocol.BasicPublish's |
| Client.Channel.OpenOk | amqp.py:449-451 | the channel is marked open and nothing else changes |
| Client.Channel.CloseOk | amqp.py:438-440 | the channel is marked closed and nothing else changes |
| Client.Channel.AccessRequestOk | amqp.py:412-415 | the result is Protocol.AccessRequestOk's: the ticket, or Truncated |
| Client.Channel.DispatchMethod | amqp.py:453-462 | the new state and result are Protocol.ChannelDispatch's |
| Client.Content.constructor | amqp.py:469-474 | the content holds the body |
| Client.Content.Serialize | amqp.py:476-480 | the packed properties and the body are Protocol.Serialize's: a zero short, then the body unchanged |
| Client.Connect | amqp.py:189-207 | a fresh connection, after the header and the handshake, in exactly Protocol.Connect's state with its result |

## Left out

- The socket: host:port parsing, `socket.connect`, `makefile` and `flush()`. The transport is the received bytes, read through a position, and the log of bytes written. A `flush` adds nothing to that log.
- `print` and `hexdump`: logging only.
- The `__del__` finalizers of `Connection` and `Channel`. They depend on garbage-collection timing, and `Channel.__del__` passes a keyword, `msg`, that `close` does not accept.
- The table value tags 'I', 'D' and 'T'. Their Python branches are broken:
  - `isinstance` is given a list;
  - `decimal` is never imported;
  - `write_longlong` is called with two arguments;
  - the 'I' reader uses native byte order;
  - the 'T' reader uses the local time zone.
- Other table tags. In the model, reading any tag other than 'S' and 'F' fails with `UnsupportedTag`. The source has no branch for such a tag: it reuses a stale value or raises NameError.
- UTF-8: strings are byte sequences. The model does no `decode('utf-8')` in `read_shortstr` and no `unicode` encoding in the writers. `Content.__init__`'s unicode branch is left out too; it would raise.
- `start`'s `split(' ')` of the mechanisms and locales. The model keeps the raw long strings, because `start` only prints them.
- Dictionary order. Tables are sequences of entries in the order they are written. The client-properties and login literals are written in the order they appear in the source; Python 2 would use its own hash order.
- Integer width of parameters. Ids, codes and limits are typed by their field width (`u16`, `u32`). Python's `pack` would raise `struct.error` on an out-of-range argument instead. Computed lengths are checked and give `OutOfRange`.
- `channel_max`, `frame_max`, `heartbeat` and `known_hosts` start at 0 and empty. In the source they do not exist until `tune` and `open_ok` set them.
- `main`: the demo driver.
- Client.Connection.SendContent, Client.Channel.BasicPublish, Protocol.SendContent, Protocol.SendBody, Protocol.BasicPublish: require frame_max > 8 or an empty body. With frame_max of 8 or less, the source's `body[:frame_max - 8]` is empty or cuts from the end, and its loop does not end.
- Client.Connection.Handshake: the loop of `__init__` is a separate method, called by `Client.Connect` right after the constructor, because a Dafny constructor cannot return the error a wait may raise.
- Client.Connection.TuneLimits: `tune`'s reads are a method of their own, and `Tune` calls it and then `TuneOk`. `Protocol.TuneLimits` and `Protocol.Tune` are split the same way.
- Client.Connection.Request, Protocol.Request: "send a method frame, then wait once" is one member, shared by close, Channel.open, Channel.close and access_request.
- Client.Channel.OpenOk, Client.Channel.CloseOk: they take no arguments, because the source's handlers ignore theirs. The connection's ghost `flags` map mirrors every channel's `is_open`, so that the state can be read without visiting the channel objects.
- The model follows amqp.py as written, and so:
  - `start_ok` sends the mechanism 'AMQPLAIN', with the login table, less its 4 length bytes, as the response;
  - `read_table` reads entries while the position is below the declared length. A table whose region is shorter than declared fails: the loop goes on past the region's end, and the next entry's read raises Truncated. But a long-string value that runs past the declared end is silently cut at the end of the region.
- Codec.Writer.WriteTable, Codec.Writer.WriteField, Fields.EncodeValue, Fields.TableEntryRoundTrip, Fields.TableRoundTrip: a nested table value is written with the 'F' tag, as amqp.py:175-177 intends. As written, amqp.py:164 passes a list to `isinstance`, which raises TypeError for every value that is not a string, so the source's write_table fails on any nested table and its 'F' branch never runs.
- Properties.HandshakeTurns: the opening handshake is proved turn by turn. StartTurn, TuneTurn and OpenOkTurn each take one server frame from the bytes at the read position, and HandshakeTurns chains three successful waits. No single lemma states Connect on a whole byte stream of start, tune and open_ok: unfolding the three waits together is beyond the solver's resource limit.
