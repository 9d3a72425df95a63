# easysocket core, modelled in Dafny

easysocket is a Java socket framework. Devices and clients exchange *datagrams* with the server. A datagram is a 16-byte header followed by a body. The header holds:

- a version byte;
- a four-byte big-endian body length;
- a type byte: 0 for a heartbeat, 1 for an MVC request or reply;
- a ten-byte charset tag.

This project models the core of easysocket:

- **Wire** (`wire.dfy`): the datagram and its header codec.
- **Reassembly** and **Decoding** (`reassembly.dfy`, `decoder.dfy`): the length-field frame reassembler that cuts a byte stream into datagrams. `Reassembly` specifies one loop iteration as a pure function, and `Decoding` carries the same loop on a real growing `array`.
- **Draining** (`draining.dfy`): the reassembler as it is evidently meant to behave.
- **Channels** (`channels.dfy`): `ProtocolData` and `ChannelInfo`, the frames passed between layers.
- **Protocol** (`protocol.dfy`): `ProtocolImpl`, the bridge between sockets and the data workers. It keeps the connection registry, publishes lifecycle events, hands inbound MVC frames to the deque, writes outbound frames and sweeps idle connections.
- **PubSub** (`pubsub.dfy`): `DefaultPublishCenter`, the in-process channel/subscriber bus, with its two maps.
- **Dispatch** (`dispatch.dfy`): `MvcDataworker`, which takes frames from the deque and routes the request to a resource. It maps faults to coded replies and answers on `/back` + the invoked path.
- **Sessions** and **Contexts** (`sessions.dfy`, `contexts.dfy`): the per-connection sessions and the request/response contexts.
- **ClientSide** (`client.dfy`): the test-side client, with its `Worker`, its `Reader` (a copy of the reassembler dispatching type 1 bodies) and its writer loop.

Java `null` is `Option`. Exceptions are result values (`Fault`, `Status`, `Threw`, `Sending`). `int` arithmetic is written out (`ToInt32`, `TruncDiv`).

Each stateful class has a value-level specification function: `AfterInit`, `AfterRegister`, `Step`, `SendLoop`, and so on. The class's method ensures that its new state is what that function gives from the old state. The properties are lemmas about those functions.

Where the design and the code differ, the model follows the code:

- The design says an idle connection is evicted when its idle time exceeds the heartbeat timeout. The code evicts once the idle time, truncated to whole seconds, is at least `heartbeat + 1` seconds (`Protocol.ExpiredIff`).
- The design says a session is removed when its connection closes. `SessionManagerImpl.remove` deletes nothing (`Sessions.SessionManagerImpl.Remove`).
- The design says a failed validation is answered "400", and an unsupported media type "401". The catch clauses dereference a response context that is still null at that point, so they throw (`Dispatch.EarlyFaultsThrow`, `Dispatch.MissingReaderThrows`).
- The design says the client puts a message that failed to send back at the head of its queue. The code uses `put`, which appends at the tail (`ClientSide.SendStep`).
- `ProtocolImpl.destroy` empties the registry without closing connections or publishing UNREGISTER (`Protocol.AfterDestroy`).
- The client's `start` creates its reader and writer threads but never starts them, and never clears its shutdown flag (`ClientSide.NewClientNeverSends`).
- The dataworker's read filter is `data != null || channelInfo == null`. A frame with no connection passes it, and a null body then fails in the decoder (`Dispatch.ReadOne`).

## Model

| member | source | states |
|---|---|---|
| Wire.LengthField | src/main/java/com/joe/easysocket/server/data/Datagram.java:10 | the length field is four bytes read big-endian, so it is below 2^32 |
| Wire.LengthBytes | src/main/java/com/joe/easysocket/server/data/Datagram.java:10 | a length below 2^32 written as four big-endian bytes reads back as the same length |
| Wire.Decode | src/main/java/com/joe/easysocket/server/data/Datagram.java:8-14 | a frame is decoded exactly when the buffer holds a whole header and at least the body length it declares; the datagram is well-formed and its bytes are the buffer's prefix |
| Wire.Encode | src/main/java/com/joe/easysocket/server/data/Datagram.java:8-14 | the frame is header plus body: version at byte 0, body length in bytes 1-4, type at byte 5, charset tag in bytes 6-15, then the body |
| Wire.Build | src/main/java/com/joe/easysocket/server/data/Datagram.java:46-53 | a built datagram is well-formed and keeps the body, type and version it was given; `size` is the body length |
| Wire.DecodeBuild | src/main/java/com/joe/easysocket/server/data/Datagram.java:8-14 | round trip: decoding a buffer that starts with a built frame gives back that datagram, whatever bytes follow |
| Wire.DecodeWellFormed | src/main/java/com/joe/easysocket/server/data/Datagram.java:23-34 | a well-formed datagram is decided by its bytes: decoding them, with anything after, gives it back |
| Wire.HeaderLayout | src/main/java/com/joe/easysocket/server/data/Datagram.java:8-14 | the header is exactly 16 bytes, `size` counts the body only and equals the length field |
| Common.ToInt32 | src/test/java/com/joe/test/easysocket/LengthFieldBasedFrameDecoder.java:64-66 | Java `int` arithmetic: the result is in `int` range, congruent to the exact value modulo 2^32, and equal to it when it fits |
| Common.TruncDiv | src/main/java/com/joe/easysocket/server/protocol/ProtocolImpl.java:132 | Java integer division: rounds toward zero for negative dividends |
| Reassembly.Fill | src/test/java/com/joe/test/easysocket/LengthFieldBasedFrameDecoder.java:61 | the chunk lands at the write cursor; bytes before and after it are unchanged |
| Reassembly.ShiftLeft | src/test/java/com/joe/test/easysocket/LengthFieldBasedFrameDecoder.java:71 | the tail from index k moves to the front and the last k bytes stay as they were |
| Reassembly.NewCapacity | src/test/java/com/joe/test/easysocket/LengthFieldBasedFrameDecoder.java:81-84 | the grown capacity is `old + min(old/2, 2048)`, or `Integer.MAX_VALUE` when that sum overflows |
| Reassembly.CapacityGrows | src/test/java/com/joe/test/easysocket/LengthFieldBasedFrameDecoder.java:76-84 | for a capacity of at least 2, growth strictly increases it, by at most 2048, and never past `Integer.MAX_VALUE` |
| Reassembly.Settle | src/test/java/com/joe/test/easysocket/LengthFieldBasedFrameDecoder.java:68-88 | after a read: a handed-over frame is well-formed, is the buffer's front, and resets both cursors; growth happens only for an incomplete frame longer than a buffer below `Integer.MAX_VALUE`, to `NewCapacity`, keeping the bytes so far; waiting means the incomplete frame fits; a failure or a wait leaves the state as it is; the buffer never shrinks |
| Reassembly.Received | src/test/java/com/joe/test/easysocket/LengthFieldBasedFrameDecoder.java:61-66 | a read writes the chunk at the write cursor and advances it by exactly the chunk length, or by -1 at end of stream; once 16 bytes are in, `dataLen` is the length field plus 16 in `int` arithmetic, otherwise it is unchanged |
| Reassembly.Step | src/test/java/com/joe/test/easysocket/LengthFieldBasedFrameDecoder.java:60-88 | one iteration: a read offered negative room or longer than the room throws IndexOutOfBoundsException with nothing changed, an I/O failure ends the loop with nothing changed; the buffer never shrinks, a wait means the frame is incomplete and fits, and a handed-over frame is well-formed and resets both cursors |
| Reassembly.StepKeepsBytes | src/test/java/com/joe/test/easysocket/LengthFieldBasedFrameDecoder.java:60-88 | an iteration that waits or grows keeps every byte received so far, in place, followed by the new chunk |
| Reassembly.StepFrame | src/test/java/com/joe/test/easysocket/LengthFieldBasedFrameDecoder.java:68-75 | a frame is handed over exactly when the write cursor has reached a non-negative `dataLen` and the buffer starts with a decodable frame; it is decoded from the buffer start, the bytes from `dataLen` on move to index 0 and both cursors are reset to 0 |
| Reassembly.StepGrowth | src/test/java/com/joe/test/easysocket/LengthFieldBasedFrameDecoder.java:76-88 | the buffer grows exactly when the frame is incomplete and longer than the buffer, to `NewCapacity`, keeping the first `writePoint` bytes; at `Integer.MAX_VALUE` the loop fails with OutOfMemoryError instead |
| Reassembly.Emitted | src/test/java/com/joe/test/easysocket/LengthFieldBasedFrameDecoder.java:75 | an iteration hands over one frame if it completed one, and none otherwise |
| Reassembly.Loop | src/test/java/com/joe/test/easysocket/LengthFieldBasedFrameDecoder.java:60-89 | the loop only reports reaching the end of the stream when asked to stop there, and then with no exception |
| Reassembly.LoopFrameCount | src/test/java/com/joe/test/easysocket/LengthFieldBasedFrameDecoder.java:60-89 | at most one frame per iteration |
| Reassembly.LoopFramesWellFormed | src/test/java/com/joe/test/easysocket/LengthFieldBasedFrameDecoder.java:68-75 | every frame handed over by a step function that only emits well-formed frames is well-formed |
| Reassembly.StepperEmitsWellFormed | src/test/java/com/joe/test/easysocket/LengthFieldBasedFrameDecoder.java:68-70 | every frame the reassembler's iteration hands over is a well-formed datagram |
| Reassembly.Run | src/test/java/com/joe/test/easysocket/LengthFieldBasedFrameDecoder.java:60-89 | the reassembler's loop hands over at most one frame per read, every one a well-formed datagram, and reports the end of the stream only when told to stop there, with no exception |
| Reassembly.LoopConcat | src/test/java/com/joe/test/easysocket/LengthFieldBasedFrameDecoder.java:60-89 | frames are handed over in the order they complete: the loop over `a + b` hands over the frames of `a`, then those of `b` from where `a` left the buffer |
| Reassembly.LoopUnfold | src/test/java/com/joe/test/easysocket/LengthFieldBasedFrameDecoder.java:60-89 | the loop on a non-empty script is one iteration followed by the loop on the rest |
| Reassembly.SettleComplete | src/test/java/com/joe/test/easysocket/LengthFieldBasedFrameDecoder.java:68-75 | a buffer that starts with a whole frame, with `dataLen` its length, hands over that frame and resets the cursors |
| Reassembly.SettleWait | src/test/java/com/joe/test/easysocket/LengthFieldBasedFrameDecoder.java:76-88 | an incomplete frame that fits the buffer makes the loop wait |
| Reassembly.ReceivedOn | src/test/java/com/joe/test/easysocket/LengthFieldBasedFrameDecoder.java:61-66 | reading the next part of a frame that completes its header leaves the buffer starting with the frame's bytes so far and `dataLen` equal to its length |
| Reassembly.StepReceiving | src/test/java/com/joe/test/easysocket/LengthFieldBasedFrameDecoder.java:60-88 | a read of the next bytes of a frame, once its header is complete, waits while the frame is incomplete and hands it over when its last byte arrives |
| Reassembly.StepperReceivesFrame | src/test/java/com/joe/test/easysocket/LengthFieldBasedFrameDecoder.java:60-88 | the reassembler's step receives every well-formed frame correctly from any cursor at which its header is complete |
| Reassembly.FinishFrame | src/test/java/com/joe/test/easysocket/LengthFieldBasedFrameDecoder.java:60-89 | feeding the rest of a frame in non-empty chunks to a cursor that holds its whole header hands over exactly that frame and resets the cursors |
| Reassembly.ReassembleFrame | src/test/java/com/joe/test/easysocket/LengthFieldBasedFrameDecoder.java:60-89 | from a reset cursor, a frame that fits the buffer and arrives in chunks whose first one holds the header is handed over exactly once, intact |
| Reassembly.ReassembleAll | src/test/java/com/joe/test/easysocket/LengthFieldBasedFrameDecoder.java:60-89 | frames arriving one after another, each as such a delivery, are handed over in order, each exactly once |
| Reassembly.ReassembleFrames | src/test/java/com/joe/test/easysocket/LengthFieldBasedFrameDecoder.java:60-89 | the reassembler hands over a stream of well-formed frames that each fit the buffer and arrive in chunks (first chunk holding the header), in order, each exactly once, ending with the write cursor reset |
| Reassembly.CapacityAfter | src/test/java/com/joe/test/easysocket/LengthFieldBasedFrameDecoder.java:76-88 | the capacity after one iteration never shrinks and never passes `Integer.MAX_VALUE`; it grows only while the frame is incomplete and longer than the buffer, and then always when the buffer holds at least 2 bytes |
| Reassembly.ByteReadsFit | src/test/java/com/joe/test/easysocket/LengthFieldBasedFrameDecoder.java:60-88 | one-byte reads always fit the room the loop offers, however long the frame, because an incomplete frame longer than the buffer makes it grow |
| Reassembly.StepGrowing | src/test/java/com/joe/test/easysocket/LengthFieldBasedFrameDecoder.java:60-88 | a read of the next part of a frame longer than the buffer: while the frame is incomplete the bytes so far are kept and the buffer grows exactly when the frame does not fit; the last byte hands the frame over and resets the cursors |
| Reassembly.StepperGrowsFrame | src/test/java/com/joe/test/easysocket/LengthFieldBasedFrameDecoder.java:60-88 | the reassembler's iteration receives every well-formed frame, growing the buffer as needed |
| Reassembly.FinishGrowing | src/test/java/com/joe/test/easysocket/LengthFieldBasedFrameDecoder.java:60-89 | feeding the rest of a frame, in chunks that fit the room offered as the buffer grows, hands over exactly that frame, resets the cursors and leaves the buffer large enough for it |
| Reassembly.ReassembleGrowing | src/test/java/com/joe/test/easysocket/LengthFieldBasedFrameDecoder.java:60-89 | a frame of any length up to `Integer.MAX_VALUE`, longer than the buffer or not, arriving in chunks that fit the room offered as the buffer grows, is handed over exactly once and intact; the buffer ends at least as long as the frame |
| Reassembly.ShortReadNeverWaits | src/test/java/com/joe/test/easysocket/LengthFieldBasedFrameDecoder.java:64-68 | as written, a read that leaves fewer than 16 bytes in a reset buffer never waits: it hands over whatever the buffer decodes to, or fails |
| Reassembly.EmptyMvcFrame | src/main/java/com/joe/easysocket/server/data/Datagram.java:8-14 | an empty MVC frame is well-formed and exactly one header long |
| Reassembly.EmptyFrameBytes | src/main/java/com/joe/easysocket/server/data/Datagram.java:8-14 | an empty MVC frame has zero length bytes and type 1 at byte 5 |
| Reassembly.FirstByteFires | src/test/java/com/joe/test/easysocket/LengthFieldBasedFrameDecoder.java:64-75 | as written, one byte read into a reset zero-filled 16-byte buffer is handed over at once, as a heartbeat |
| Reassembly.ShortFrameMalformed | src/test/java/com/joe/test/easysocket/LengthFieldBasedFrameDecoder.java:68-70 | as written, fifteen bytes whose length field reads non-zero, in a reset 16-byte buffer, fail as a malformed frame |
| Reassembly.SplitHeaderLosesFrame | src/test/java/com/joe/test/easysocket/LengthFieldBasedFrameDecoder.java:64-75 | counterexample: an empty MVC frame whose first read is one byte yields a spurious heartbeat and then a failure; the real frame is never handed over |
| Reassembly.FrameDropsTrailingBytes | src/test/java/com/joe/test/easysocket/LengthFieldBasedFrameDecoder.java:71-74 | as written, handing over a frame resets the write cursor to 0 even when the read went past the frame's end |
| Reassembly.CoalescedStep | src/test/java/com/joe/test/easysocket/LengthFieldBasedFrameDecoder.java:68-75 | two copies of a frame read at once: the first is handed over and the cursor reset although the buffer holds the second |
| Reassembly.CoalescedFramesLoseSecond | src/test/java/com/joe/test/easysocket/LengthFieldBasedFrameDecoder.java:71-74 | counterexample: two empty MVC frames in one read yield only the first; the second is lost |
| Decoding.WriteAt | src/test/java/com/joe/test/easysocket/LengthFieldBasedFrameDecoder.java:61 | writing a chunk into the array at the write cursor changes exactly those bytes |
| Decoding.ShiftDown | src/test/java/com/joe/test/easysocket/LengthFieldBasedFrameDecoder.java:71 | the in-place overlapping copy towards index 0 leaves the array as `ShiftLeft` says |
| Decoding.CopyPrefix | src/test/java/com/joe/test/easysocket/LengthFieldBasedFrameDecoder.java:85-87 | the first n bytes are copied into the new array and the rest of it is untouched |
| Decoding.RunAdvance | src/test/java/com/joe/test/easysocket/LengthFieldBasedFrameDecoder.java:60-89 | the frames so far plus the loop on the rest of the script is the whole loop, one iteration later |
| Decoding.FrameBuffer.constructor | src/test/java/com/joe/test/easysocket/LengthFieldBasedFrameDecoder.java:54-58 | a new buffer of the given capacity, zero-filled, with both cursors at 0 |
| Decoding.FrameBuffer.Feed | src/test/java/com/joe/test/easysocket/LengthFieldBasedFrameDecoder.java:60-89 | one iteration on the array and cursors does what `Reassembly.Step` says: same new buffer, cursors and result |
| Decoding.FrameBuffer.Receive | src/test/java/com/joe/test/easysocket/LengthFieldBasedFrameDecoder.java:61-66 | the read into the array and the update of `dataLen` match `Reassembly.Received` |
| Decoding.FrameBuffer.Settle | src/test/java/com/joe/test/easysocket/LengthFieldBasedFrameDecoder.java:68-88 | the frame, grow or wait branch on the array matches `Reassembly.Settle`, including the new array on growth |
| Decoding.FrameDecoder.constructor | src/test/java/com/joe/test/easysocket/LengthFieldBasedFrameDecoder.java:28-35 | the configuration is stored and the initial buffer size is `min(maxFrameLength, 2048)` |
| Decoding.FrameDecoder.Default | src/test/java/com/joe/test/easysocket/LengthFieldBasedFrameDecoder.java:40-42 | the default configuration: frames up to `Integer.MAX_VALUE`, length field at offset 1 and 4 bytes wide, 16-byte header, buffer of 2048 |
| Decoding.FrameDecoder.Read | src/test/java/com/joe/test/easysocket/LengthFieldBasedFrameDecoder.java:51-93 | the frames handed to the consumer, in order, and the exception that ends the loop are exactly those of `Reassembly.Run` from a zero-filled buffer; a negative size fails at the allocation |
| Draining.Drain | src/test/java/com/joe/test/easysocket/LengthFieldBasedFrameDecoder.java:64-88 | the intended completion rule (header in and cursor past the declared length), handing over every complete frame at the front; the buffer never shrinks and the cursor never advances |
| Draining.Handover | src/test/java/com/joe/test/easysocket/LengthFieldBasedFrameDecoder.java:68-75 | a frame whose declared length is all in is decoded and the bytes after it drained; the buffer never shrinks and the cursor never advances |
| Draining.DrainWellFormed | src/test/java/com/joe/test/easysocket/LengthFieldBasedFrameDecoder.java:68-70 | every frame draining hands over is well-formed, since each is the decoding of the complete frame at the front |
| Draining.Feed | src/test/java/com/joe/test/easysocket/LengthFieldBasedFrameDecoder.java:60-89 | one read then draining: a chunk longer than the room throws IndexOutOfBoundsException with nothing changed; every frame handed over is well-formed and the buffer never shrinks |
| Draining.FeedAll | src/test/java/com/joe/test/easysocket/LengthFieldBasedFrameDecoder.java:60-89 | the corrected loop over a script of reads hands over only well-formed frames and never shrinks the buffer |
| Draining.Stream | src/main/java/com/joe/easysocket/server/data/Datagram.java:8-14 | the bytes of frames sent back to back: the stream starts with the first frame's bytes |
| Draining.DrainWait | src/test/java/com/joe/test/easysocket/LengthFieldBasedFrameDecoder.java:64-68 | a buffer holding part of a frame, header complete or not, waits |
| Draining.DrainTake | src/test/java/com/joe/test/easysocket/LengthFieldBasedFrameDecoder.java:68-75 | a buffer starting with a whole frame hands it over and drains the bytes after it |
| Draining.FrontFrame | src/test/java/com/joe/test/easysocket/LengthFieldBasedFrameDecoder.java:64-70 | a buffer starting with a frame's bytes declares that frame's length and decodes to it |
| Draining.DrainStream | src/test/java/com/joe/test/easysocket/LengthFieldBasedFrameDecoder.java:60-89 | draining a buffer that holds the start of a stream hands over its whole frames, in order, and keeps the remaining bytes at the front |
| Draining.DrainStreamWait | src/test/java/com/joe/test/easysocket/LengthFieldBasedFrameDecoder.java:64-68 | a buffer holding only part of the first frame of a stream hands over nothing and keeps the start of the stream |
| Draining.DrainStreamTake | src/test/java/com/joe/test/easysocket/LengthFieldBasedFrameDecoder.java:68-75 | a buffer holding the first frame of a stream whole hands it over ahead of what draining the rest of the stream hands over |
| Draining.FeedStream | src/test/java/com/joe/test/easysocket/LengthFieldBasedFrameDecoder.java:60-89 | one read of the next bytes of the stream followed by draining keeps the buffer holding the start of the rest of the stream |
| Draining.FeedFirst | src/test/java/com/joe/test/easysocket/LengthFieldBasedFrameDecoder.java:60-89 | after the first read of a script that carries the rest of the stream, the loop is ready for the remaining reads |
| Draining.FeedAllStream | src/test/java/com/joe/test/easysocket/LengthFieldBasedFrameDecoder.java:60-89 | the corrected loop fed the rest of a stream in reads that fit hands over exactly the remaining frames, in order, and ends empty |
| Draining.ReceivesAnySplit | src/test/java/com/joe/test/easysocket/LengthFieldBasedFrameDecoder.java:60-89 | however a stream of well-formed frames is split into reads that fit the buffer, the corrected loop hands over exactly those frames, in order |
| Channels.ChannelOnly | src/main/java/com/joe/easysocket/server/data/ProtocolData.java:55-57 | `new ChannelInfo(channel)` has that id, no host and port -1 |
| Channels.ProtocolData.Channel | src/main/java/com/joe/easysocket/server/data/ProtocolData.java:20-23 | the connection id of the frame's ChannelInfo |
| Channels.AccessorsAgree | src/main/java/com/joe/easysocket/server/data/ProtocolData.java:20-38 | `getChannel()` and `id()` both give the connection id, and the host and port accessors give the ChannelInfo's |
| Channels.ProtocolData.Id | src/main/java/com/joe/easysocket/server/data/ProtocolData.java:35-38 | `id()` is the same value as `getChannel()`, the connection id |
| Channels.ProtocolData.RemotePort | src/main/java/com/joe/easysocket/server/data/ProtocolData.java:25-28 | the port of the frame's connection |
| Channels.ProtocolData.RemoteHost | src/main/java/com/joe/easysocket/server/data/ProtocolData.java:30-33 | the host of the frame's connection, possibly null |
| Protocol.ClampHeartbeat | src/main/java/com/joe/easysocket/server/protocol/ProtocolImpl.java:74 | a heartbeat below 30 becomes 30 and any other is kept |
| Protocol.ReceiveChannelOf | src/main/java/com/joe/easysocket/server/protocol/ProtocolImpl.java:55-59 | an empty channel name selects "/protocol/receive", any other is kept |
| Protocol.Built | src/main/java/com/joe/easysocket/server/protocol/ProtocolImpl.java:69-75 | a new bridge is not initialised, has done nothing, has its publish centre and deque, and a heartbeat of at least 30 |
| Protocol.Deliveries | src/main/java/com/joe/easysocket/server/protocol/ProtocolImpl.java:233-239 | an event goes to every event centre, in registration order, once each |
| Protocol.Published | src/main/java/com/joe/easysocket/server/protocol/ProtocolImpl.java:233-239 | `publish` only adds the deliveries of the event to the trace |
| Protocol.AfterInit | src/main/java/com/joe/easysocket/server/protocol/ProtocolImpl.java:78-143 | `init` is a no-op once initialised; a missing publish centre or deque is refused with both flags reported; otherwise the registry and event centres start empty, the bridge subscribes to its channel and becomes initialised |
| Protocol.AfterDestroy | src/main/java/com/joe/easysocket/server/protocol/ProtocolImpl.java:145-159 | `destroy` does nothing unless initialised and not destroyed; otherwise it empties the registry and event centres without closing or publishing anything |
| Protocol.AfterRegisterCenter | src/main/java/com/joe/easysocket/server/protocol/ProtocolImpl.java:227-231 | the event centre is appended to the list; before `init` the call throws |
| Protocol.AfterClose | src/main/java/com/joe/easysocket/server/protocol/ProtocolImpl.java:204-220 | an empty or unknown id changes nothing; otherwise the connection leaves the registry, is closed, and UNREGISTER goes out with the cause |
| Protocol.AfterRegister | src/main/java/com/joe/easysocket/server/protocol/ProtocolImpl.java:161-177 | three cases: another connection under the id is closed with cause SYSTEM and replaced without REGISTER; the same connection changes nothing; a new id is inserted and REGISTER goes out; other ids are untouched |
| Protocol.Inbound | src/main/java/com/joe/easysocket/server/protocol/ProtocolImpl.java:195 | the frame handed to the dispatcher carries the bytes and the connection's id, host and port |
| Protocol.AfterReceive | src/main/java/com/joe/easysocket/server/protocol/ProtocolImpl.java:179-202 | RECEIVED goes out first; any frame with a type byte refreshes the connection's activity time; a heartbeat stops there; any other frame is appended at the deque tail; an unknown source, a too-short frame or a missing deque publishes RECEIVEDERROR instead of throwing |
| Protocol.AfterSend | src/main/java/com/joe/easysocket/server/protocol/ProtocolImpl.java:241-265 | a null frame or unknown destination gives ERRORFUTURE and no event; otherwise RECEIVEDSUCCESS precedes the write and SEND follows a successful one; a failing write gives ERRORFUTURE |
| Protocol.SendFails | src/main/java/com/joe/easysocket/server/protocol/ProtocolImpl.java:241-265 | ERRORFUTURE is the answer exactly when there is no frame, no such connection, or the write fails |
| Protocol.ExpiredIff | src/main/java/com/joe/easysocket/server/protocol/ProtocolImpl.java:117-119 | with idle time counted in whole seconds, a connection expires exactly when idle for at least `heartbeat + 1` seconds |
| Protocol.SweepPeriod | src/main/java/com/joe/easysocket/server/protocol/ProtocolImpl.java:132 | the pause between sweeps is `heartbeat / 5 * 1000` ms, at least 6000 when that fits an `int` |
| Protocol.SweepOne | src/main/java/com/joe/easysocket/server/protocol/ProtocolImpl.java:116-125 | the sweep's visit to one connection changes only the registry and the trace |
| Protocol.SweepEvicts | src/main/java/com/joe/easysocket/server/protocol/ProtocolImpl.java:112-126 | a pass removes exactly the visited connections that expired, leaves all other entries as they were, and changes nothing else |
| Protocol.SweepKeepsLive | src/main/java/com/joe/easysocket/server/protocol/ProtocolImpl.java:112-126 | a pass over the whole registry keeps exactly the connections that have not expired, unchanged |
| Protocol.RecentlyActiveSurvives | src/main/java/com/joe/easysocket/server/protocol/ProtocolImpl.java:115-126 | a connection active within the last `heartbeat + 1` seconds survives the sweep |
| Protocol.CloseIdempotent | src/main/java/com/joe/easysocket/server/protocol/ProtocolImpl.java:204-220 | a second `close` of the same id is a no-op, whatever the cause |
| Protocol.LifecycleIdempotent | src/main/java/com/joe/easysocket/server/protocol/ProtocolImpl.java:78-159 | a second successful `init` and a second `destroy` are no-ops |
| Protocol.ProtocolImpl.constructor | src/main/java/com/joe/easysocket/server/protocol/ProtocolImpl.java:69-75 | the fields are those of `Built` |
| Protocol.ProtocolImpl.RegisterDeque | src/main/java/com/joe/easysocket/server/protocol/ProtocolImpl.java:50-53 | only the deque changes |
| Protocol.ProtocolImpl.RegisterPublishCenter | src/main/java/com/joe/easysocket/server/protocol/ProtocolImpl.java:55-59 | only the publish centre and its channel change, the channel defaulted |
| Protocol.ProtocolImpl.Init | src/main/java/com/joe/easysocket/server/protocol/ProtocolImpl.java:78-143 | the fields change as `AfterInit` says |
| Protocol.ProtocolImpl.Destroy | src/main/java/com/joe/easysocket/server/protocol/ProtocolImpl.java:145-159 | the fields change as `AfterDestroy` says |
| Protocol.ProtocolImpl.Publish | src/main/java/com/joe/easysocket/server/protocol/ProtocolImpl.java:233-239 | the event reaches each event centre in order; before `init` the call throws |
| Protocol.ProtocolImpl.RegisterEventCenter | src/main/java/com/joe/easysocket/server/protocol/ProtocolImpl.java:227-231 | the fields change as `AfterRegisterCenter` says |
| Protocol.ProtocolImpl.Close | src/main/java/com/joe/easysocket/server/protocol/ProtocolImpl.java:204-220 | the fields change as `AfterClose` says |
| Protocol.ProtocolImpl.RegisterChannel | src/main/java/com/joe/easysocket/server/protocol/ProtocolImpl.java:161-177 | the fields change as `AfterRegister` says |
| Protocol.ProtocolImpl.Receive | src/main/java/com/joe/easysocket/server/protocol/ProtocolImpl.java:179-202 | the fields change as `AfterReceive` says |
| Protocol.ProtocolImpl.Send | src/main/java/com/joe/easysocket/server/protocol/ProtocolImpl.java:241-265 | the fields and the answer are those of `AfterSend` |
| Protocol.ProtocolImpl.Sweep | src/main/java/com/joe/easysocket/server/protocol/ProtocolImpl.java:112-126 | one pass of the cleanup loop over the registry leaves the state `SweepOver` gives |
| PubSub.EqualsAsymmetric | src/main/java/com/joe/easysocket/server/ext/DefaultPublishCenter.java:208-232 | the wrapper equals its subscriber, but a subscriber with `Object`'s `equals` does not equal the wrapper |
| PubSub.Lookup | src/main/java/com/joe/easysocket/server/ext/DefaultPublishCenter.java:208-232 | a map keyed by wrappers finds an entry exactly when the probe equals the key |
| PubSub.SetAdd | src/main/java/com/joe/easysocket/server/ext/DefaultPublishCenter.java:309-313 | `add` always answers true and keeps an element already present once |
| PubSub.SetRemove | src/main/java/com/joe/easysocket/server/ext/DefaultPublishCenter.java:315-318 | `remove` answers true exactly when some element equals the probe, and that element is then gone |
| PubSub.AfterInit | src/main/java/com/joe/easysocket/server/ext/DefaultPublishCenter.java:41-53 | `init` tests the flag but never sets it, so every call starts both maps afresh |
| PubSub.AfterDestroy | src/main/java/com/joe/easysocket/server/ext/DefaultPublishCenter.java:55-64 | `destroy` clears the channel map only when the flag is set |
| PubSub.DestroyNeverClears | src/main/java/com/joe/easysocket/server/ext/DefaultPublishCenter.java:41-64 | as written, `destroy` never changes a bus, even after `init` |
| PubSub.AfterRegister | src/main/java/com/joe/easysocket/server/ext/DefaultPublishCenter.java:78-108 | the subscriber joins the channel's set and no other set changes; on a new channel its reverse set is replaced by just that channel; on a known channel the channel is added to its reverse set, and the call throws when it has none |
| PubSub.RemoveFrom | src/main/java/com/joe/easysocket/server/ext/DefaultPublishCenter.java:117-125 | the subscriber is taken out of the sets of the listed channels only |
| PubSub.AfterUnregisterListener | src/main/java/com/joe/easysocket/server/ext/DefaultPublishCenter.java:110-128 | a null subscriber or one the bare probe misses changes nothing; otherwise it leaves every channel of its reverse set, that set is emptied, and nothing else changes |
| PubSub.Detach | src/main/java/com/joe/easysocket/server/ext/DefaultPublishCenter.java:160-164 | each subscriber of the channel loses the channel from its reverse set; the loop throws exactly when one has no reverse set |
| PubSub.AfterUnregisterChannel | src/main/java/com/joe/easysocket/server/ext/DefaultPublishCenter.java:153-167 | an empty or unknown channel changes nothing; otherwise the channel leaves the reverse set of each of its subscribers and its own set is emptied |
| PubSub.AfterUnregister | src/main/java/com/joe/easysocket/server/ext/DefaultPublishCenter.java:130-151 | both absent does nothing; an empty channel acts as `unregister(listener)`, a null subscriber as `unregister(channel)`; otherwise only that pair is undone, throwing when the bare probe finds no reverse set |
| PubSub.Deliveries | src/main/java/com/joe/easysocket/server/ext/DefaultPublishCenter.java:188-197 | one delivery per subscriber in iteration order, marked unhandled for those that throw |
| PubSub.AfterPub | src/main/java/com/joe/easysocket/server/ext/DefaultPublishCenter.java:66-76 | `pub` only appends the deliveries to the channel's subscribers |
| PubSub.ListsCardinality | src/main/java/com/joe/easysocket/server/ext/DefaultPublishCenter.java:66-76 | a duplicate-free listing of a set is as long as the set |
| PubSub.PubReachesSubscribers | src/main/java/com/joe/easysocket/server/ext/DefaultPublishCenter.java:66-76 | `pub` reaches exactly the channel's subscribers, each once, with the same message; one that throws does not keep the others from being served |
| PubSub.RegisterOverwritesReverseSet | src/main/java/com/joe/easysocket/server/ext/DefaultPublishCenter.java:96-102 | as written, joining a second, new channel drops the first from the reverse set, so `unregister(listener)` leaves the subscriber on the first |
| PubSub.SecondSubscriberThrows | src/main/java/com/joe/easysocket/server/ext/DefaultPublishCenter.java:84-86 | as written, a second subscriber on a known channel joins its set and then `register` throws |
| PubSub.BareProbeMisses | src/main/java/com/joe/easysocket/server/ext/DefaultPublishCenter.java:110-151 | as written, a subscriber with `Object`'s `equals` is never found by `unregister(listener)`, and `unregister(channel, listener)` throws on it |
| PubSub.DestroyKeepsSubscribers | src/main/java/com/joe/easysocket/server/ext/DefaultPublishCenter.java:41-64 | as written, `destroy` after `init` leaves a registered subscriber subscribed |
| PubSub.FixedInit | src/main/java/com/joe/easysocket/server/ext/DefaultPublishCenter.java:41-53 | intended `init`: sets the flag and starts with consistent empty maps |
| PubSub.FixedDestroy | src/main/java/com/joe/easysocket/server/ext/DefaultPublishCenter.java:55-64 | intended `destroy`: after `init` both maps are emptied; consistency is kept |
| PubSub.FixedDestroyClears | src/main/java/com/joe/easysocket/server/ext/DefaultPublishCenter.java:55-64 | after the intended `destroy` no channel has a subscriber |
| PubSub.FixedRegister | src/main/java/com/joe/easysocket/server/ext/DefaultPublishCenter.java:78-108 | intended `register`: the pair is added to both maps and nothing else changes, so the maps stay consistent |
| PubSub.FixedUnregisterListener | src/main/java/com/joe/easysocket/server/ext/DefaultPublishCenter.java:110-128 | intended `unregister(listener)`: the subscriber is on no channel afterwards and the maps stay consistent |
| PubSub.FixedUnregisterChannel | src/main/java/com/joe/easysocket/server/ext/DefaultPublishCenter.java:153-167 | intended `unregister(channel)`: the channel has no subscribers and no reverse set names it |
| PubSub.FixedUnregisterPair | src/main/java/com/joe/easysocket/server/ext/DefaultPublishCenter.java:130-151 | intended `unregister(channel, listener)`: exactly that pair is removed from both maps |
| PubSub.UnsubscribedHearsNothing | src/main/java/com/joe/easysocket/server/ext/DefaultPublishCenter.java:66-76 | after the intended `unregister(listener)`, no `pub` on any channel reaches the subscriber |
| PubSub.DefaultPublishCenter.constructor | src/main/java/com/joe/easysocket/server/ext/DefaultPublishCenter.java:41-53 | a new bus is the empty bus after `init` |
| PubSub.DefaultPublishCenter.Init | src/main/java/com/joe/easysocket/server/ext/DefaultPublishCenter.java:41-53 | the maps change as `AfterInit` says |
| PubSub.DefaultPublishCenter.Destroy | src/main/java/com/joe/easysocket/server/ext/DefaultPublishCenter.java:55-64 | the maps change as `AfterDestroy` says |
| PubSub.DefaultPublishCenter.Pub | src/main/java/com/joe/easysocket/server/ext/DefaultPublishCenter.java:66-76 | the deliveries are those of `AfterPub` |
| PubSub.DefaultPublishCenter.Register | src/main/java/com/joe/easysocket/server/ext/DefaultPublishCenter.java:78-108 | the maps and status are those of `AfterRegister` |
| PubSub.DefaultPublishCenter.UnregisterListener | src/main/java/com/joe/easysocket/server/ext/DefaultPublishCenter.java:110-128 | the maps change as `AfterUnregisterListener` says |
| PubSub.DefaultPublishCenter.UnregisterChannel | src/main/java/com/joe/easysocket/server/ext/DefaultPublishCenter.java:153-167 | the maps and status are those of `AfterUnregisterChannel` |
| PubSub.DefaultPublishCenter.Unregister | src/main/java/com/joe/easysocket/server/ext/DefaultPublishCenter.java:130-151 | the maps and status are those of `AfterUnregister` |
| Dispatch.Worker | src/main/java/com/joe/easysocket/ext/dataworker/mvc/MvcDataworker.java:545-547 | only type 1 frames are processed |
| Dispatch.MediaTypeOrJson | src/main/java/com/joe/easysocket/ext/dataworker/mvc/MvcDataworker.java:461-475 | an empty media type means "json"; any other is kept |
| Dispatch.FirstMatch | src/main/java/com/joe/easysocket/ext/dataworker/mvc/MvcDataworker.java:461-475 | the first interceptor in container order that accepts the type, or none when no interceptor accepts it |
| Dispatch.FindInterceptor | src/main/java/com/joe/easysocket/ext/dataworker/mvc/MvcDataworker.java:461-475 | reader and writer lookup: the first interceptor accepting the type (empty meaning "json"); MediaTypeNoSupportException exactly when none does |
| Dispatch.FindResource | src/main/java/com/joe/easysocket/ext/dataworker/mvc/MvcDataworker.java:484-498 | the resource registered at the path; ResourceNotFoundException exactly for a null, empty or unmapped path |
| Dispatch.BackPath | src/main/java/com/joe/easysocket/ext/dataworker/mvc/MvcDataworker.java:445-452 | the reply path is "/back" before a path starting with "/", "/back/" before any other |
| Dispatch.BackPathIgnoresLeadingSlash | src/main/java/com/joe/easysocket/ext/dataworker/mvc/MvcDataworker.java:445-452 | a path with and without a leading slash get the same reply path |
| Dispatch.BuildResult | src/main/java/com/joe/easysocket/ext/dataworker/mvc/MvcDataworker.java:445-452 | a null invoked path throws NullPointerException, before the writer is looked at; otherwise the reply keeps the correlation id, answers on the reply path and carries the writer's encoding, and no writer gives no reply |
| Dispatch.ResolveWriter | src/main/java/com/joe/easysocket/ext/dataworker/mvc/MvcDataworker.java:529-543 | the writer the response context holds, else the writer for the produce type, else the "json" writer; a null response context throws |
| Dispatch.Respond | src/main/java/com/joe/easysocket/ext/dataworker/mvc/MvcDataworker.java:393-433 | a null result becomes a success BaseDTO on the reply path, an InterfaceData is returned unchanged, anything else is written on the reply path; a filter fault or a missing writer escapes, and a null invoked path throws NullPointerException unless the result is an InterfaceData |
| Dispatch.Process | src/main/java/com/joe/easysocket/ext/dataworker/mvc/MvcDataworker.java:294-344 | a fault raised before the handler returns leaves the response context null; only a parse failure leaves no message |
| Dispatch.Claiming | src/main/java/com/joe/easysocket/ext/dataworker/mvc/MvcDataworker.java:363-365 | the mappers claiming a fault, in container order; the first is the earliest that claims it |
| Dispatch.CodedReply | src/main/java/com/joe/easysocket/ext/dataworker/mvc/MvcDataworker.java:350-357 | a coded reply is written with the resolved writer on the reply path; no message, a writer fault or a null invoked path makes it throw |
| Dispatch.Recover | src/main/java/com/joe/easysocket/ext/dataworker/mvc/MvcDataworker.java:346-376 | ResourceNotFound answers "404" with the default writer on the reply path, or throws NullPointerException when the invoked path is null; an unclaimed fault other than the three domain faults escapes; every reply goes to the requesting connection |
| Dispatch.Accept | src/main/java/com/joe/easysocket/ext/dataworker/mvc/MvcDataworker.java:277-381 | an empty body gives no reply, and exactly then; a completed request is answered to the requesting connection |
| Dispatch.AcceptHappyPath | src/main/java/com/joe/easysocket/ext/dataworker/mvc/MvcDataworker.java:277-433 | a request that completes is answered to its connection, following the three result branches |
| Dispatch.UnknownPathAnswers404 | src/main/java/com/joe/easysocket/ext/dataworker/mvc/MvcDataworker.java:346-349 | an unknown path is answered "404" on the reply path by the default writer; a null path throws NullPointerException instead |
| Dispatch.NullInvokeThrows | src/main/java/com/joe/easysocket/ext/dataworker/mvc/MvcDataworker.java:445-447 | as written, a request with no path raises ResourceNotFoundException and then, building the "404" reply, NullPointerException: `accept` throws and nothing is answered |
| Dispatch.UnclaimedFaultEscapes | src/main/java/com/joe/easysocket/ext/dataworker/mvc/MvcDataworker.java:368-370 | a fault no mapper claims escapes `accept`, so nothing is published for the request |
| Dispatch.MissingReaderThrows | src/main/java/com/joe/easysocket/ext/dataworker/mvc/MvcDataworker.java:350-353 | as written, a consume type no reader accepts gets no "401" reply: the catch clause throws NullPointerException |
| Dispatch.EarlyFaultsThrow | src/main/java/com/joe/easysocket/ext/dataworker/mvc/MvcDataworker.java:354-376 | as written, a validation failure gets no "400" reply and a mapper claiming the handler's exception is never reached |
| Dispatch.FixedResolveWriter | src/main/java/com/joe/easysocket/ext/dataworker/mvc/MvcDataworker.java:529-543 | intended writer choice: a response context not yet built counts as one without a writer, so a "json" writer always suffices |
| Dispatch.PathOrEmpty | src/main/java/com/joe/easysocket/ext/dataworker/mvc/MvcDataworker.java:484-487 | a missing path is read as the empty path, which `findResource` treats alike; a present path, or an envelope that failed to parse, is left as it is |
| Dispatch.FixedAccept | src/main/java/com/joe/easysocket/ext/dataworker/mvc/MvcDataworker.java:277-381 | intended `accept`: an empty body gives no reply, and exactly then |
| Dispatch.FixedAnswersHandledFaults | src/main/java/com/joe/easysocket/ext/dataworker/mvc/MvcDataworker.java:346-376 | as intended, every domain fault and every claimed fault is answered once the envelope is parsed and a "json" writer exists |
| Dispatch.ReadOne | src/main/java/com/joe/easysocket/ext/dataworker/mvc/MvcDataworker.java:231-275 | one `read` takes the head of the deque and submits it, decoded, with its connection exactly when it decodes to a type 1 frame (both directions); an empty deque submits nothing |
| Dispatch.Admitted | src/main/java/com/joe/easysocket/ext/dataworker/mvc/MvcDataworker.java:259-268 | only application frames are submitted, at most one per queued frame |
| Dispatch.AdmittedConcat | src/main/java/com/joe/easysocket/ext/dataworker/mvc/MvcDataworker.java:231-275 | queued frames are submitted in queue order: a concatenated queue submits each part in turn |
| Dispatch.AdmittedOne | src/main/java/com/joe/easysocket/ext/dataworker/mvc/MvcDataworker.java:231-275 | a one-frame queue submits exactly what one `read` submits |
| Dispatch.AdmittedSplit | src/main/java/com/joe/easysocket/ext/dataworker/mvc/MvcDataworker.java:231-275 | a queue submits the frames before any index, then those from it on |
| Dispatch.AdmittedFrom | src/main/java/com/joe/easysocket/ext/dataworker/mvc/MvcDataworker.java:259-268 | from an application frame on, that frame is submitted first |
| Dispatch.AdmittedAt | src/main/java/com/joe/easysocket/ext/dataworker/mvc/MvcDataworker.java:259-268 | every queued frame that decodes to a type 1 frame is submitted, with its connection, between the frames submitted before it and those after it |
| Dispatch.AfterStart | src/main/java/com/joe/easysocket/ext/dataworker/mvc/MvcDataworker.java:110-124 | a running worker returns the name unchanged; otherwise the flag is cleared, and on success an empty name is replaced by the nonce |
| Dispatch.AfterShutdown | src/main/java/com/joe/easysocket/ext/dataworker/mvc/MvcDataworker.java:126-162 | a stopped worker is left alone; otherwise it is marked stopped, the teardown throws when the containers were never created, and the callback runs once after a clean one |
| Dispatch.LifecycleIdempotent | src/main/java/com/joe/easysocket/ext/dataworker/mvc/MvcDataworker.java:110-162 | a second `start` and a second `shutdown` change nothing |
| Dispatch.FailedStartSticks | src/main/java/com/joe/easysocket/ext/dataworker/mvc/MvcDataworker.java:111-124 | as written, a `start` refused for a missing deque leaves the worker marked running: the next `start` does nothing and `shutdown` throws |
| Dispatch.FixedStart | src/main/java/com/joe/easysocket/ext/dataworker/mvc/MvcDataworker.java:111-124 | intended `start`: the flag is cleared only after `init` succeeds |
| Dispatch.FixedStartKeepsRunningReady | src/main/java/com/joe/easysocket/ext/dataworker/mvc/MvcDataworker.java:111-162 | as intended, a worker marked running always has its containers, so `shutdown` never throws |
| Dispatch.MvcDataworker.constructor | src/main/java/com/joe/easysocket/ext/dataworker/mvc/MvcDataworker.java:83-88 | a new worker is shut down, with its collaborators registered |
| Dispatch.MvcDataworker.Start | src/main/java/com/joe/easysocket/ext/dataworker/mvc/MvcDataworker.java:110-124 | the lifecycle changes as `AfterStart` says |
| Dispatch.MvcDataworker.Shutdown | src/main/java/com/joe/easysocket/ext/dataworker/mvc/MvcDataworker.java:126-162 | the lifecycle changes as `AfterShutdown` says |
| Dispatch.MvcDataworker.Read | src/main/java/com/joe/easysocket/ext/dataworker/mvc/MvcDataworker.java:231-275 | the deque and the submitted frames change as `ReadOne` says |
| Dispatch.MvcDataworker.Drain | src/main/java/com/joe/easysocket/ext/dataworker/mvc/MvcDataworker.java:231-275 | the work loop empties the deque and submits `Admitted` of it: by `AdmittedAt` and `Admitted`, every application frame and nothing else, in order |
| Sessions.Attribute | src/main/java/com/joe/easysocket/ext/dataworker/mvc/context/session/LocalSession.java:45-48 | an absent key reads as null |
| Sessions.AttributeAfterPut | src/main/java/com/joe/easysocket/ext/dataworker/mvc/context/session/LocalSession.java:40-48 | a key reads back what was stored under it, and every other key reads as before |
| Sessions.LocalSession.constructor | src/main/java/com/joe/easysocket/ext/dataworker/mvc/context/session/LocalSession.java:20-23 | a new session has no attributes |
| Sessions.LocalSession.Id | src/main/java/com/joe/easysocket/ext/dataworker/mvc/context/session/LocalSession.java:35-38 | the session id is the connection id |
| Sessions.LocalSession.RemoteHost | src/main/java/com/joe/easysocket/ext/dataworker/mvc/context/session/LocalSession.java:25-28 | the connection's host |
| Sessions.LocalSession.RemotePort | src/main/java/com/joe/easysocket/ext/dataworker/mvc/context/session/LocalSession.java:30-33 | the connection's port |
| Sessions.LocalSession.SetAttribute | src/main/java/com/joe/easysocket/ext/dataworker/mvc/context/session/LocalSession.java:40-43 | only the given key changes |
| Sessions.LocalSession.GetAttribute | src/main/java/com/joe/easysocket/ext/dataworker/mvc/context/session/LocalSession.java:45-48 | the stored value, or null |
| Sessions.SessionManagerImpl.Init | src/main/java/com/joe/easysocket/server/ext/mvc/context/session/SessionManagerImpl.java:17-20 | the map starts empty |
| Sessions.SessionManagerImpl.Destroy | src/main/java/com/joe/easysocket/server/ext/mvc/context/session/SessionManagerImpl.java:22-25 | the map is emptied; before `init` the call throws |
| Sessions.SessionManagerImpl.Get | src/main/java/com/joe/easysocket/server/ext/mvc/context/session/SessionManagerImpl.java:15-38 | before `init` the map is null and the call throws NullPointerException, changing nothing; otherwise a known id gives its stored session, an unknown one stores a new session for that connection, and no other id changes |
| Sessions.SessionManagerImpl.Remove | src/main/java/com/joe/easysocket/server/ext/mvc/context/session/SessionManagerImpl.java:40-43 | a null connection gives null; otherwise the cached session is returned and nothing is deleted |
| Sessions.SessionManagerImpl.FixedRemove | src/main/java/com/joe/easysocket/server/ext/mvc/context/session/SessionManagerImpl.java:40-43 | intended `remove`: the session is returned and deleted, and no other id changes |
| Sessions.StaleAfterRemove | src/main/java/com/joe/easysocket/server/ext/mvc/context/session/SessionManagerImpl.java:40-43 | as written, a connection id that comes back after `remove` sees the old session's attributes |
| Sessions.FreshAfterFixedRemove | src/main/java/com/joe/easysocket/server/ext/mvc/context/session/SessionManagerImpl.java:27-43 | with the intended `remove`, the returning connection gets a new session with no attributes |
| Contexts.Entities | src/main/java/com/joe/easysocket/server/ext/mvc/context/RequestContext.java:92-99 | the entities are the parameters that are not contexts, nothing else |
| Contexts.EntitiesConcat | src/main/java/com/joe/easysocket/server/ext/mvc/context/RequestContext.java:94-96 | the filter keeps the original order |
| Contexts.EntitiesKeepsEntities | src/main/java/com/joe/easysocket/server/ext/mvc/context/RequestContext.java:94-96 | parameters that are all entities pass through unchanged |
| Contexts.RequestContext.constructor | src/main/java/com/joe/easysocket/server/ext/mvc/context/RequestContext.java:47-53 | source, datagram and charset are stored and a new wrapper is bound to this context |
| Contexts.RequestWrapper.Session | src/main/java/com/joe/easysocket/server/ext/mvc/context/RequestContext.java:74-76 | the context's session |
| Contexts.RequestWrapper.Charset | src/main/java/com/joe/easysocket/server/ext/mvc/context/RequestContext.java:83-85 | the context's charset |
| Contexts.RequestWrapper.GetEntity | src/main/java/com/joe/easysocket/server/ext/mvc/context/RequestContext.java:92-99 | computed once from the parameters, then the same array; null parameters throw |
| Contexts.RequestWrapper.GetInputStream | src/main/java/com/joe/easysocket/server/ext/mvc/context/RequestContext.java:106-111 | created once over the datagram body, then handed out again |
| Contexts.EntityMemoised | src/main/java/com/joe/easysocket/server/ext/mvc/context/RequestContext.java:92-99 | two `getEntity` calls give the same array even when the parameters changed in between |
| Contexts.Response.BuildOk | src/main/java/com/joe/easysocket/server/ext/mvc/context/ResponseContext.java:34-38 | a fresh response whose result is a success BaseDTO |
| Contexts.Response.Build | src/main/java/com/joe/easysocket/server/ext/mvc/context/ResponseContext.java:40-44 | a fresh response whose result is exactly the one given |
| Contexts.ResponseContext.constructor | src/main/java/com/joe/easysocket/server/ext/mvc/context/ResponseContext.java:14-16 | a fresh response with no result and no writer |
| Contexts.ResponseContext.View | src/main/java/com/joe/easysocket/ext/dataworker/mvc/MvcDataworker.java:350-376 | the catch clauses see the context's writer |
| ClientSide.WorkerShutdown | src/test/java/com/joe/test/easysocket/client/Worker.java:32-41 | answers true exactly on a running worker, which is then marked shut down, interrupted once and has its callback run once; a stopped worker is unchanged |
| ClientSide.ReaderShutdown | src/test/java/com/joe/test/easysocket/client/Reader.java:144-152 | the worker's shutdown, with the pool stopped exactly when it succeeded |
| ClientSide.ShutdownOnce | src/test/java/com/joe/test/easysocket/client/Reader.java:144-152 | a second shutdown answers false and changes nothing, so the callback runs at most once |
| ClientSide.ReaderStart | src/test/java/com/joe/test/easysocket/client/Reader.java:56-60 | refused on a running reader; otherwise the flag is cleared |
| ClientSide.Dispatched | src/test/java/com/joe/test/easysocket/client/Reader.java:115-126 | at most one body per frame |
| ClientSide.DispatchedOne | src/test/java/com/joe/test/easysocket/client/Reader.java:115-126 | one frame hands its body to the pool exactly when its type is 1, and nothing otherwise |
| ClientSide.DispatchedAt | src/test/java/com/joe/test/easysocket/client/Reader.java:115-126 | every type 1 frame's body reaches the pool, between the bodies of the frames before it and those after it |
| ClientSide.DispatchedAllMvc | src/test/java/com/joe/test/easysocket/client/Reader.java:115-126 | frames that are all type 1 hand every body to the pool, in order |
| ClientSide.DispatchedConcat | src/test/java/com/joe/test/easysocket/client/Reader.java:115-126 | bodies go to the pool in the order their frames complete |
| ClientSide.DispatchedAreMvc | src/test/java/com/joe/test/easysocket/client/Reader.java:115-126 | every body handed to the pool is the body of a type 1 frame |
| ClientSide.NothingButMvcDispatched | src/test/java/com/joe/test/easysocket/client/Reader.java:115-116 | heartbeats and other types hand nothing to the pool |
| ClientSide.ReaderRun | src/test/java/com/joe/test/easysocket/client/Reader.java:84-141 | the reader's loop from a zero-filled 1024-byte buffer: at most one frame per read, each a well-formed datagram; it reports the end of the stream only with no exception |
| ClientSide.Reader.constructor | src/test/java/com/joe/test/easysocket/client/Reader.java:43-51 | a new reader is shut down and has submitted nothing |
| ClientSide.Reader.Start | src/test/java/com/joe/test/easysocket/client/Reader.java:56-60 | the flags change as `ReaderStart` says |
| ClientSide.Reader.Shutdown | src/test/java/com/joe/test/easysocket/client/Reader.java:144-152 | the flags change as `ReaderShutdown` says |
| ClientSide.Reader.Pass | src/test/java/com/joe/test/easysocket/client/Reader.java:92-140 | one loop pass: the end of the stream shuts the reader down, the iteration matches the reassembler step, and the pool receives what `Dispatched` gives for the frame, which `DispatchedOne` shows is its body exactly when it is type 1 |
| ClientSide.Reader.Drive | src/test/java/com/joe/test/easysocket/client/Reader.java:92-141 | the pool receives `Dispatched` of the loop's frames: by `DispatchedAt` and `DispatchedAreMvc`, every type 1 body and nothing else, in order; the loop ends with its exception, or shut down exactly when the stream ended |
| ClientSide.Reader.ReadLoop | src/test/java/com/joe/test/easysocket/client/Reader.java:61-75 | the reader thread: the pool receives `Dispatched` of the frames of `ReaderRun` (every type 1 body and nothing else, in order); the reader ends shut down exactly when the stream ended or the loop threw, with the callback run once |
| ClientSide.WireBytes | src/test/java/com/joe/test/easysocket/client/Client.java:111-113 | as written, only the body reaches the socket |
| ClientSide.BodyIsNotAFrame | src/test/java/com/joe/test/easysocket/client/Client.java:111-113 | as written, the bytes on the socket never decode to the frame that was built |
| ClientSide.ShortMessageNeverDecodes | src/test/java/com/joe/test/easysocket/client/Client.java:111-113 | as written, a message shorter than a header is not a frame at all |
| ClientSide.FixedWireBytes | src/test/java/com/joe/test/easysocket/client/Client.java:111-113 | intended: the whole frame goes out and decodes back to the built datagram |
| ClientSide.SendStep | src/test/java/com/joe/test/easysocket/client/Client.java:107-120 | one writer pass: a message taken is written, or put back at the tail when the write fails; an interrupt puts back whatever `msg` still holds |
| ClientSide.FixedSendStep | src/test/java/com/joe/test/easysocket/client/Client.java:107-120 | intended pass: `msg` is cleared once written, so sent plus queued messages are conserved |
| ClientSide.SendLoop | src/test/java/com/joe/test/easysocket/client/Client.java:105-122 | a closed or stopped writer does nothing |
| ClientSide.FixedSendLoop | src/test/java/com/joe/test/easysocket/client/Client.java:105-122 | a closed or stopped writer does nothing |
| ClientSide.InterruptRequeuesSentMessage | src/test/java/com/joe/test/easysocket/client/Client.java:106-120 | as written, a message written and then an interrupt in the next `take` leaves that message queued again |
| ClientSide.FixedSendConserves | src/test/java/com/joe/test/easysocket/client/Client.java:105-122 | as intended, the writer neither loses nor duplicates a message |
| ClientSide.Client.constructor | src/test/java/com/joe/test/easysocket/client/Client.java:26-27 | a new client is shut down and not failed, with nothing queued |
| ClientSide.Client.Write | src/test/java/com/joe/test/easysocket/client/Client.java:131-139 | the message is queued at the tail and true answered; an interrupted `put` answers false and queues nothing |
| ClientSide.Client.WriteLoop | src/test/java/com/joe/test/easysocket/client/Client.java:105-122 | the queue, the messages written and the failed flag end as `SendLoop` says |
| ClientSide.Client.Consume | src/test/java/com/joe/test/easysocket/client/Client.java:195-224 | the consumer receives exactly the frames of the loop, in order, and the loop's exception is reported |
| ClientSide.Client.ReadLoop | src/test/java/com/joe/test/easysocket/client/Client.java:63-72 | an open client hands the consumer exactly the reassembler's frames from a 2048-byte buffer, and becomes failed exactly on an I/O failure |
| ClientSide.NewClientNeverSends | src/test/java/com/joe/test/easysocket/client/Client.java:51-87 | as written, a client after `start` is still shut down, so the writer loop sends nothing |

## Left out

- Threads, thread pools, executors, locks, `volatile` visibility and interrupts, except where an interrupt decides a value (`ClientSide.SendStep`): each loop is modelled as running alone.
- The blocking deque's polling timeouts and the sweep thread's sleeps. Only the period between sweeps is computed (`Protocol.SweepPeriod`).
- The clock and the random nonce are parameters: `now` for the sweep, a four-character `nonce` for the worker name.
- Sockets and streams are scripts of read results (`ReadResult`) and of write outcomes. Socket creation, host resolution and closing are not part of this model.
- The JSON serializer, and the bytes each interceptor writes, are opaque tokens. Parsing the request envelope is a given outcome (`Script`).
- Reflection-based containers, resource invocation and parameter binding are given as data (`Env`, `Resource`, `Mapper`). Filters are not part of this model.
- The RECEIVE event a client raises for a dispatched body is modelled as the sequence of bodies handed to the pool.
- `DatagramUtil` is not part of this model. Its decode and encode are reconstructed from the header layout documented in `Datagram.java`.
- `Datagram.charset` is a `String` in Java. The model keeps the ten raw header bytes.
- `Worker.isShutdown` only returns the flag, which the reader's state carries.
- `ResponseContext.Response` has a private constructor. The model names it `Empty`, and the factories `BuildOk` and `Build` are the only callers.
- Shutdown hooks, logging and `BaseDTO` fields other than its status are not modelled.
- A null channel name in `ProtocolImpl.close` and a null callback in `Worker.shutdown` are not modelled: ids are strings and callbacks are flags.
- Protocol.ProtocolImpl.Sweep: one pass over the registry in a given order, not the repeating thread.
- ClientSide.Reader.ReadLoop and ClientSide.Client.ReadLoop: the threads run to the end of the given script; a shutdown from another thread in the middle is not modelled.
- Draining.ReceivesAnySplit: covers reads that fit the buffer without growing it. The corrected loop's growth is stated per read (`Draining.Drain`, `Draining.Feed`), not over a whole stream. For the loop as written, growth is covered end to end by `Reassembly.ReassembleGrowing`.
- Reassembly.ReassembleFrames: covers frames that fit the buffer. Frames longer than the buffer are covered one at a time by `Reassembly.ReassembleGrowing`, not as a stream of several.
- Decoding.FrameDecoder.constructor: the offsets are `nat`, and the length field must lie inside the header. Every caller of the constructor in the source uses the default configuration (offset 1, header 16). A negative or out-of-header offset, which would throw in `DatagramUtil.convert`, is not modelled.

## Findings

| source | as written | input that shows it | evidently intended | confidence | as-written member | corrected member |
|---|---|---|---|---|---|---|
| src/test/java/com/joe/test/easysocket/LengthFieldBasedFrameDecoder.java:64-75 | `dataLen` stays 0 until 16 bytes are in, so `writePoint >= dataLen` holds after any read and a frame is cut from a partial header | an empty MVC frame whose first read is 1 byte: a spurious heartbeat is emitted, then the decoder fails | wait for the header, and for the declared length, before cutting | not executed | Reassembly.SplitHeaderLosesFrame | Draining.ReceivesAnySplit |
| src/test/java/com/joe/test/easysocket/LengthFieldBasedFrameDecoder.java:71-74 | after a frame, `writePoint` is reset to 0 even when the read went past the frame's end | two empty MVC frames in one 32-byte read: only the first is emitted | keep `writePoint - dataLen` bytes and cut every complete frame | not executed | Reassembly.CoalescedFramesLoseSecond | Draining.ReceivesAnySplit |
| src/main/java/com/joe/easysocket/server/ext/DefaultPublishCenter.java:96-102 | registering on a new channel replaces the subscriber's reverse set with that channel alone | register L on "a", then on "b": `unregister(L)` leaves L on "a" | add the channel to the reverse set | not executed | PubSub.RegisterOverwritesReverseSet | PubSub.FixedRegister |
| src/main/java/com/joe/easysocket/server/ext/DefaultPublishCenter.java:84-86 | on a known channel, the new subscriber's reverse set is looked up and used without creating it | L1 then L2 on the same channel: L2 joins, then `register` throws NullPointerException | create the reverse set when absent | not executed | PubSub.SecondSubscriberThrows | PubSub.FixedRegister |
| src/main/java/com/joe/easysocket/server/ext/DefaultPublishCenter.java:110-151 | the maps are keyed by wrappers but probed with the bare subscriber, and `ConcurrentHashMap` tests `probe.equals(key)` | a subscriber with `Object.equals`: `unregister(L)` does nothing, and `unregister(c, L)` throws | probe with the wrapper | not executed | PubSub.BareProbeMisses | PubSub.UnsubscribedHearsNothing |
| src/main/java/com/joe/easysocket/server/ext/DefaultPublishCenter.java:41-64 | `init` never sets its flag, so `destroy` never clears | `init`, `register(c, L)`, `destroy`: L is still subscribed to c | set the flag in `init` and clear both maps in `destroy` | not executed | PubSub.DestroyKeepsSubscribers | PubSub.FixedDestroyClears |
| src/main/java/com/joe/easysocket/ext/dataworker/mvc/MvcDataworker.java:350-376 | the 401, 400 and exception-mapper branches resolve the writer through `responseContext`, which is still null when the fault comes before the handler returns | a consume type no reader accepts, or a failed validation: NullPointerException, and no reply is sent | treat the missing context as one without a writer and answer with the "json" writer | not executed | Dispatch.EarlyFaultsThrow | Dispatch.FixedAnswersHandledFaults |
| src/main/java/com/joe/easysocket/ext/dataworker/mvc/MvcDataworker.java:445-447 | `buildResult` calls `invoke.startsWith` before anything else. The "404" branch builds its reply from the request's invoked path, which `findResource` has just rejected for being empty or null | a request with no path: ResourceNotFoundException is caught, then NullPointerException escapes `accept` and no "404" is sent | treat a missing path like the empty one and answer "404" | not executed | Dispatch.NullInvokeThrows | Dispatch.FixedAnswersHandledFaults |
| src/main/java/com/joe/easysocket/ext/dataworker/mvc/MvcDataworker.java:111-124 | `start` clears the shutdown flag before `init`, and `init` can refuse | `start` with no deque registered: the worker counts as running, a second `start` is ignored and `shutdown` throws | clear the flag only after `init` succeeds | not executed | Dispatch.FailedStartSticks | Dispatch.FixedStartKeepsRunningReady |
| src/main/java/com/joe/easysocket/server/ext/mvc/context/session/SessionManagerImpl.java:40-43 | `remove` returns the cached session and deletes nothing | `get(c1)`, set "user" := 7, `remove(c1)`, `get(c1)`: "user" reads 7 | delete the entry | not executed | Sessions.StaleAfterRemove | Sessions.FreshAfterFixedRemove |
| src/test/java/com/joe/test/easysocket/client/Client.java:111-113 | the writer sends the datagram's body, not its bytes | any message: the server receives no header, and a body shorter than 16 bytes never decodes | write the whole datagram | not executed | ClientSide.BodyIsNotAFrame | ClientSide.FixedWireBytes |
| src/test/java/com/joe/test/easysocket/client/Client.java:106-120 | `msg` is not cleared after a successful write, so an interrupt in the next `take` re-queues the sent message | queue [m], write m, interrupt in `take`: m is queued again | clear `msg` after each write | not executed | ClientSide.InterruptRequeuesSentMessage | ClientSide.FixedSendConserves |
