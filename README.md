# Room chat server and socket framing, modelled in Dafny

This project models the core of a small Java chat system. It has three parts.

- **The selector-driven room server** (`ChatServerNio`). It keeps three maps:
  channel to name (`clientNames`), room to member channels (`rooms`) and
  channel to current room (`clientRooms`). Each read on a client channel is
  decoded as UTF-8, trimmed and, when it holds a colon, run as one `TYPE:DATA`
  command. The commands are NAME, CREATE, JOIN, LEAVE, MESSAGE and LIST.
  Handlers answer the sender and broadcast to room members. A broadcast is
  echoed to the sender unless the frame starts with `SYSTEM:`.
- **The binary framing of the thread-per-client server** (`SocketMessage`,
  `SocketMessageInputStream`, `SocketMessageOutputStream`). A frame is a
  2-byte little-endian length header followed by the UTF-8 payload.
- **The per-connection loop of that server** (`ClientHandler.run`). The first
  message is the client's name. `exit` in any case ends the loop. Blank texts
  are skipped. Texts over 256 UTF-8 bytes get an error frame. Every other text
  is broadcast as `[name] text` to the shared client list.

Layout, one module per file:

- `wrappers.dfy`: `Option` and `Result`.
- `utf8.dfy`: the RFC 3629 encoder and decoder (section 3 of RFC 3629). It
  proves `Decode(Encode(s)) == s` and that the per-character byte count equals
  the encoded length.
- `java_text.dfy`: the `java.lang.String` operations the code relies on:
  `trim`, `startsWith`, `split(":", 2)` and `equalsIgnoreCase("exit")`.
- `socket_message.dfy`, `socket_message_output_stream.dfy` and
  `socket_message_input_stream.dfy`: the frame, the writer and the reader.
  - The writer is a class whose `written` bytes only grow.
  - The reader is a class over the peer's bytes with a cursor. It reads the
    header and the payload into arrays, as the Java code does.
  - Each stream method is proved against a pure function, and the round trip
    is proved about those functions.
- `client_handler.dfy`: the session as a pure function of the inbound texts.
  - A `ClientHandler` class has a `run` method (`Run`) and a `broadcast`
    loop. They append to a shared trace and are proved to produce that
    session.
  - A handler is identified by a number. The shared client list holds those
    numbers.
- `nio_frames.dfy`: frames and plans.
  - A handler decides a plan: a sequence of sends, each one frame to a set of
    channels. `Emitted(before, after, plan)` states that every channel
    received exactly the frames the plan has for it, in plan order.
  - Nothing in the code fixes `HashSet` or `HashMap` iteration order, so this
    is the strongest order-independent statement.
  - A `LIST:` frame is planned as a map of counts. It is written as entries in
    whatever order the loop chose, and it matches when the entries enumerate
    the map.
- `nio_rooms.dfy`: each handler as a pure step from the three maps to new
  maps and a plan.
- `nio_properties.dfy`: what those steps promise, and the invariant
  `Consistent` that they keep:
  - a channel is a member of room `r` exactly when its current room is `r`;
  - every channel with a current room has a name.
- `nio_server.dfy`: class `ChatServerNio`. It holds the three maps as fields
  and a per-channel record of the frames written. Each handler is a method
  proved to do exactly what its pure step says, and `ProcessMessage` keeps
  `Valid()`.

Three behaviours are modelled as the code has them:

- One read is one command.
- Names need not be unique.
- Rooms are never deleted.

A connection is refused only when more than 50 channels are *named*.

Where a plain description and the code part ways, the model follows the code:

- LIST is answered for a channel that has not registered.
- The JOIN notice to an unregistered channel starts with a Latin `c`.

## Model

| member | source | states |
|---|---|---|
| Utf8.EncodeChar | src/main/java/SocketMessage.java:9 | one character encodes to 1, 2, 3 or 4 bytes, by the code point ranges of RFC 3629 |
| Utf8.Encode | src/main/java/SocketMessage.java:9 | the encoding of a string is between one and four bytes per character |
| Utf8.Decode | src/main/java/SocketMessage.java:22-24 | decoding never fails and yields at most one character per byte |
| Utf8.LengthOfEncode | src/main/java/nio/ChatServerNio.java:253 | the UTF-8 byte length of a string (`getBytes(UTF_8).length`) is the sum of its characters' widths |
| Utf8.DecodeEncodeChar | src/main/java/SocketMessage.java:22-24 | the bytes of one character, followed by anything, decode to that character first |
| Utf8.DecodeEncode | src/main/java/SocketMessage.java:22-24 | decoding the UTF-8 encoding of any string gives the string back |
| JavaText.Trim | src/main/java/nio/ChatServerNio.java:130 | `trim()` yields the middle of the text with only chars up to U+0020 cut from both ends; empty exactly when the text is all blank |
| JavaText.ColonIndex | src/main/java/nio/ChatServerNio.java:133 | absent exactly when the text has no colon; otherwise the position of the first colon |
| JavaText.SplitOnce | src/main/java/nio/ChatServerNio.java:133-136 | no parts exactly when the text has no colon; otherwise the text is type + ":" + data with no colon in the type |
| JavaText.SplitJoin | src/main/java/nio/ChatServerNio.java:134-136 | splitting a colon-free type joined by ":" to any data gives back that type and data |
| JavaText.IsExit | src/main/java/ClientHandler.java:32 | `equalsIgnoreCase("exit")`: four characters, each equal to the letter of "exit" up to case, with U+0130 and U+0131 matching `i` as Java's case mapping makes them |
| JavaText.AsciiExit | src/main/java/ClientHandler.java:32 | on ASCII text, the exit test holds exactly for the sixteen upper/lower-case spellings of "exit" |
| SocketMessages.HeaderValue | src/main/java/SocketMessageInputStream.java:24 | the length a 2-byte header stands for is below 65536 |
| SocketMessages.FromString | src/main/java/SocketMessage.java:8-14 | the header is exactly 2 bytes: the low byte and then the next byte of the payload's UTF-8 length; the payload is the encoding |
| SocketMessages.HeaderEncodesLength | src/main/java/SocketMessage.java:10-13 | the header's value is the payload length modulo 65536, and equals it for payloads under 65536 bytes |
| SocketMessages.GetStringData | src/main/java/SocketMessage.java:22-24 | `getStringData()` decodes the stored payload bytes as UTF-8 |
| SocketMessages.StringDataRoundTrip | src/main/java/SocketMessage.java:22-24 | `new SocketMessage(s).getStringData()` is `s` |
| SocketMessageOutputStreams.SocketMessageOutputStream.Write | src/main/java/SocketMessageOutputStream.java:12-14 | `write(int)` appends exactly one byte, the low 8 bits |
| SocketMessageOutputStreams.SocketMessageOutputStream.WriteBytes | src/main/java/SocketMessageOutputStream.java:17-18 | writing an array appends its bytes in order |
| SocketMessageOutputStreams.SocketMessageOutputStream.WriteSocketMessage | src/main/java/SocketMessageOutputStream.java:16-19 | appends the header and then the data, exactly 2 + payload bytes; earlier output is untouched |
| SocketMessageOutputStreams.SerializedLength | src/main/java/SocketMessageOutputStream.java:16-19 | a frame built from a string occupies 2 plus its UTF-8 length bytes |
| SocketMessageInputStreams.ReadMessage | src/main/java/SocketMessageInputStream.java:19-32 | a read only moves the cursor forward and never past the end |
| SocketMessageInputStreams.ReadAtEnd | src/main/java/SocketMessageInputStream.java:20-23 | reading an exhausted stream is EOF and consumes nothing |
| SocketMessageInputStreams.ReadWithHeader | src/main/java/SocketMessageInputStream.java:24-31 | the length is b0 + 256*b1, within [0, 65535]; with enough bytes the message is the header and the next `length` bytes and the cursor moves by 2 + length, otherwise EOF |
| SocketMessageInputStreams.ReadOneByteLeft | src/main/java/SocketMessageInputStream.java:20-30 | with one byte left the header read is short and the high byte stays 0, so only a zero byte reads as an empty message |
| SocketMessageInputStreams.ReadSuccessShape | src/main/java/SocketMessageInputStream.java:24-31 | a successful read holds a 2-byte header and exactly the header's length of payload, taken from the bytes just consumed |
| SocketMessageInputStreams.WriteThenRead | src/main/java/SocketMessageInputStream.java:19-32 | reading the bytes of a written frame, followed by anything, gives back that frame and its string, consuming exactly the frame, for payloads under 65536 bytes |
| SocketMessageInputStreams.SocketMessageInputStream.Read | src/main/java/SocketMessageInputStream.java:15-17 | one byte and a cursor step, or -1 at the end with the cursor unchanged |
| SocketMessageInputStreams.SocketMessageInputStream.ReadInto | src/main/java/SocketMessageInputStream.java:21 | `read(byte[])` copies the next available bytes into the array's prefix, returns their number (-1 at the end) and advances the cursor by it |
| SocketMessageInputStreams.SocketMessageInputStream.ReadSocketMessage | src/main/java/SocketMessageInputStream.java:19-32 | the result and the new cursor are exactly those of `ReadMessage` on the stream's bytes |
| SocketMessageInputStreams.Exchange | src/main/java/SocketMessageOutputStream.java:16-19 | a frame written to a fresh output stream is read back successfully from the written bytes, with the same string |
| ClientHandlers.BroadcastAll | src/main/java/ClientHandler.java:77-82 | `broadcast` writes one frame per entry of the client list |
| ClientHandlers.BroadcastAllAt | src/main/java/ClientHandler.java:77-82 | the k-th frame of a broadcast goes to the k-th handler of the list |
| ClientHandlers.BroadcastReaches | src/main/java/ClientHandler.java:77-82 | each handler receives the text once per occurrence in the list, the sender included |
| ClientHandlers.Respond | src/main/java/ClientHandler.java:36-46 | the frames written in reply to one text: none for a blank text, the error frame to the sender for one over 256 UTF-8 bytes, otherwise the broadcast of `[name] text` |
| ClientHandlers.RespondReaches | src/main/java/ClientHandler.java:36-46 | a blank text reaches nobody; a text over 256 UTF-8 bytes gives the error frame to the sender only; any other text reaches every listed handler as `[name] text` |
| ClientHandlers.Replies | src/main/java/ClientHandler.java:28-48 | the replies to the texts read after the name, in order, up to the first `exit` |
| ClientHandlers.RepliesStopAtExit | src/main/java/ClientHandler.java:32-34 | nothing read after an `exit` has any effect |
| ClientHandlers.RepliesEndAtExit | src/main/java/ClientHandler.java:32-34 | an `exit` itself writes nothing |
| ClientHandlers.RemoveFirst | src/main/java/ClientHandler.java:53 | `clients.remove(this)` removes one occurrence of the handler when present and changes nothing otherwise |
| ClientHandlers.RemoveFirstAt | src/main/java/ClientHandler.java:53 | `remove` drops exactly the first occurrence and keeps the rest in order, which is the order of the farewell broadcast |
| ClientHandlers.RemoveFirstCount | src/main/java/ClientHandler.java:53 | after `remove`, the handler is listed once less if it was listed, and every other handler as often as before |
| ClientHandlers.Session | src/main/java/ClientHandler.java:18-64 | a whole `run()`: the prompt is always the first frame, and the name is set exactly when a first message was read, to that message |
| ClientHandlers.SessionReceived | src/main/java/ClientHandler.java:18-64 | per handler: the prompt if it is this one, the join notice once per listing (this one included), the replies, and the farewell once per listing left after this handler's own entry is removed |
| ClientHandlers.ExitEndsSession | src/main/java/ClientHandler.java:28-34 | a session is the same whatever follows an `exit` |
| ClientHandlers.ExitLikeEndOfStream | src/main/java/ClientHandler.java:49-63 | ending with `exit` and ending with a failed read give the same session |
| ClientHandlers.FarewellSkipsSelf | src/main/java/ClientHandler.java:52-57 | the handler is removed before the farewell, so the farewell reaches every other handler and not this one |
| ClientHandlers.NoNameNoFarewell | src/main/java/ClientHandler.java:20-22 | without a first message the only frame is the prompt to this handler, and no name is set |
| ClientHandlers.ClientHandler.Send | src/main/java/ClientHandler.java:66-75 | appends one frame for this handler and nothing else |
| ClientHandlers.ClientHandler.Broadcast | src/main/java/ClientHandler.java:77-82 | the loop appends the broadcast to the trace, one frame per listed handler in list order |
| ClientHandlers.ClientHandler.Reply | src/main/java/ClientHandler.java:36-46 | one inbound text answered by the skip / too-long / format-and-broadcast policy |
| ClientHandlers.ClientHandler.MessageLoop | src/main/java/ClientHandler.java:28-48 | the loop appends exactly the replies to the texts read before the first `exit` |
| ClientHandlers.ClientHandler.Finish | src/main/java/ClientHandler.java:51-63 | removes the handler from the list, then sends the farewell to the rest only if a name was set |
| ClientHandlers.ClientHandler.Run | src/main/java/ClientHandler.java:18-64 | the trace grows by exactly the session's frames, the list becomes the session's list and the name field the session's name |
| NioFrames.ListsGrow | src/main/java/nio/ChatServerNio.java:270-273 | appending one not-yet-listed room with its count keeps the entries a duplicate-free listing of the rooms covered so far |
| NioFrames.Write | src/main/java/nio/ChatServerNio.java:277-284 | writing a frame appends it to that channel's frames and changes no other channel's |
| NioFrames.EmittedGrow | src/main/java/nio/ChatServerNio.java:292-300 | writing the frame to one more channel of the set extends a partial broadcast by that channel alone |
| NioFrames.EmittedThen | src/main/java/nio/ChatServerNio.java:286-309 | two stretches of writes realise their two plans one after the other |
| NioFrames.RenderEntriesSnoc | src/main/java/nio/ChatServerNio.java:269-274 | each turn of the `StringBuilder` loop appends `room(count);` for one entry, so the text built is the wire text of the entries written |
| NioFrames.Decimal | src/main/java/nio/ChatServerNio.java:272 | a count is written as a non-empty string of decimal digits |
| NioFrames.DecimalRoundTrip | src/main/java/nio/ChatServerNio.java:272 | the digits written for a count read back as that count |
| NioRooms.RoomBroadcast | src/main/java/nio/ChatServerNio.java:286-309 | every frame planned is the text itself, sent only to members of the room or the sender |
| NioRooms.Name | src/main/java/nio/ChatServerNio.java:168-177 | `handleName` changes only `clientNames`, and afterwards the channel is named |
| NioRooms.Create | src/main/java/nio/ChatServerNio.java:179-196 | `handleCreate` changes only `rooms`, and no existing room's members change |
| NioRooms.Join | src/main/java/nio/ChatServerNio.java:198-220 | `handleJoin` keeps every name and every room |
| NioRooms.Message | src/main/java/nio/ChatServerNio.java:235-261 | `handleMessage` changes no map |
| NioRooms.List | src/main/java/nio/ChatServerNio.java:263-265 | `handleList` changes no map and writes one frame, to that channel alone |
| NioRooms.Command | src/main/java/nio/ChatServerNio.java:138-159 | the switch: each of the six types runs its handler; any other type writes the unknown-command notice |
| NioRooms.Dispatch | src/main/java/nio/ChatServerNio.java:133-136 | a trimmed text without a colon does nothing; otherwise it is split at the first colon into type and data |
| NioRooms.Process | src/main/java/nio/ChatServerNio.java:118-166 | end of stream and a failed read disconnect, an empty read does nothing, any other read is decoded, trimmed and dispatched |
| NioRooms.Disconnect | src/main/java/nio/ChatServerNio.java:311-316 | disconnection forgets the channel's name and current room and keeps every room |
| NioRooms.Accept | src/main/java/nio/ChatServerNio.java:99-111 | admission changes no map |
| NioRooms.Leave | src/main/java/nio/ChatServerNio.java:222-233 | leaving keeps every name and every room |
| NioRoomProperties.BroadcastReaches | src/main/java/nio/ChatServerNio.java:286-305 | a room broadcast reaches each member other than the sender once, and the sender once unless the frame starts with `SYSTEM:`; nobody else |
| NioRoomProperties.SystemNotEchoed | src/main/java/nio/ChatServerNio.java:303 | a `SYSTEM:` broadcast never reaches its sender |
| NioRoomProperties.NoColonNoCommand | src/main/java/nio/ChatServerNio.java:133 | a read whose trimmed text has no colon changes no map and writes nothing |
| NioRoomProperties.CommandAtFirstColon | src/main/java/nio/ChatServerNio.java:133-136 | the type is the text before the first colon and the data everything after it, possibly empty |
| NioRoomProperties.UnknownCommandNotice | src/main/java/nio/ChatServerNio.java:157-158 | an unknown type writes one unknown-command notice to the sender and changes nothing |
| NioRoomProperties.NameOnce | src/main/java/nio/ChatServerNio.java:168-177 | NAME on a named channel changes nothing and sends one notice; otherwise it stores the name and sends one `LIST:` frame, to that channel only |
| NioRoomProperties.NamesNotUnique | src/main/java/nio/ChatServerNio.java:169-173 | two channels can register the same name |
| NioRoomProperties.UnnamedRefused | src/main/java/nio/ChatServerNio.java:198-202 | CREATE, JOIN and MESSAGE from an unnamed channel change no map and send one `SYSTEM:` frame to it (also lines 180-183 and 236-239) |
| NioRoomProperties.CreateRoom | src/main/java/nio/ChatServerNio.java:179-196 | an existing room changes nothing; otherwise the room is added with no members, the creator is not a member, and the creator alone gets the notice and then the room list |
| NioRoomProperties.InitialConsistent | src/main/java/nio/ChatServerNio.java:20-24 | the empty maps satisfy the membership invariant |
| NioRoomProperties.LeaveOutside | src/main/java/nio/ChatServerNio.java:222-233 | LEAVE from a channel in no room changes nothing and writes nothing |
| NioRoomProperties.LeaveTells | src/main/java/nio/ChatServerNio.java:222-233 | leaving a room takes the channel out of every member set, and the remaining members of that room alone are told |
| NioRoomProperties.LeaveKeeps | src/main/java/nio/ChatServerNio.java:222-233 | leaving keeps the invariant and leaves the channel in no room |
| NioRoomProperties.JoinPlaces | src/main/java/nio/ChatServerNio.java:198-220 | JOIN keeps the invariant; after a successful join the channel is in the target room's member set and in no other |
| NioRoomProperties.JoinTells | src/main/java/nio/ChatServerNio.java:209-218 | a successful JOIN tells the remaining members of the old room of the leave, the other members of the target room of the join, and the joiner alone "вы в комнате"; re-joining the current room tells its other members both |
| NioRoomProperties.NameKeeps | src/main/java/nio/ChatServerNio.java:168-177 | NAME keeps the invariant |
| NioRoomProperties.CreateKeeps | src/main/java/nio/ChatServerNio.java:179-196 | CREATE keeps the invariant |
| NioRoomProperties.MessageOutcomes | src/main/java/nio/ChatServerNio.java:235-261 | MESSAGE changes no map. Unnamed, not in a room, empty and too long each give their own outcome. Otherwise every member of the room, the sender included, receives `MESSAGE:[name] data` exactly once |
| NioRoomProperties.ListCounts | src/main/java/nio/ChatServerNio.java:268-275 | the count listed for each room is the number of channels whose current room it is |
| NioRoomProperties.DisconnectForgets | src/main/java/nio/ChatServerNio.java:311-316 | disconnection removes the channel's name, current room and every membership, keeps all rooms and keeps the invariant |
| NioRoomProperties.CommandKeeps | src/main/java/nio/ChatServerNio.java:138-159 | every command keeps the invariant |
| NioRoomProperties.ProcessKeeps | src/main/java/nio/ChatServerNio.java:118-166 | every read, failed read and end of stream keeps the invariant |
| NioRoomProperties.CommandKeepsRooms | src/main/java/nio/ChatServerNio.java:138-159 | no command removes a room |
| NioRoomProperties.RoomsNeverDeleted | src/main/java/nio/ChatServerNio.java:118-166 | no read removes a room, not even a disconnect that empties it |
| NioRoomProperties.AdmissionLimit | src/main/java/nio/ChatServerNio.java:99-103 | admission changes no map; a channel is refused exactly when more than 50 channels are named, and an admitted one is asked for its name |
| NioRoomProperties.LengthAppend | src/main/java/nio/ChatServerNio.java:253 | the UTF-8 length of a concatenation is the sum of the lengths |
| NioRoomProperties.TrimLength | src/main/java/nio/ChatServerNio.java:130 | trimming never lengthens the UTF-8 form |
| NioRoomProperties.WellFormedRead | src/main/java/nio/ChatServerNio.java:126-136 | a read carrying the UTF-8 encoding of a text runs the trimmed text as the command |
| NioRoomProperties.WellFormedMessageFits | src/main/java/nio/ChatServerNio.java:253 | a well-formed MESSAGE read from a 1024-byte buffer has at most 1016 data bytes, so the too-long notice needs ill-formed bytes, which decode to 3-byte U+FFFD |
| NioServer.ChatServerNio.constructor | src/main/java/nio/ChatServerNio.java:20-24 | all three maps start empty, nothing has been written, and the invariant holds |
| NioServer.ChatServerNio.SendMessage | src/main/java/nio/ChatServerNio.java:277-284 | writes one frame to one channel; the maps are unchanged |
| NioServer.ChatServerNio.WriteToAll | src/main/java/nio/ChatServerNio.java:292-300 | the loop writes the frame once to every channel of the set and to no other, in any order |
| NioServer.ChatServerNio.BroadcastToRoom | src/main/java/nio/ChatServerNio.java:286-309 | the writes realise the room broadcast plan; the maps are unchanged |
| NioServer.ChatServerNio.SendRoomList | src/main/java/nio/ChatServerNio.java:268-275 | the loop builds one `LIST:` frame that lists every room once with its member count, and writes it to the channel |
| NioServer.ChatServerNio.HandleName | src/main/java/nio/ChatServerNio.java:168-177 | new maps and writes are exactly those of the NAME step |
| NioServer.ChatServerNio.HandleCreate | src/main/java/nio/ChatServerNio.java:179-196 | new maps and writes are exactly those of the CREATE step |
| NioServer.ChatServerNio.HandleJoin | src/main/java/nio/ChatServerNio.java:198-220 | new maps and writes are exactly those of the JOIN step: the leave, the join broadcast, the notice |
| NioServer.ChatServerNio.HandleLeave | src/main/java/nio/ChatServerNio.java:222-233 | new maps and writes are exactly those of the LEAVE step |
| NioServer.ChatServerNio.HandleMessage | src/main/java/nio/ChatServerNio.java:235-261 | new maps and writes are exactly those of the MESSAGE step |
| NioServer.ChatServerNio.HandleList | src/main/java/nio/ChatServerNio.java:263-265 | writes exactly the room list to the channel |
| NioServer.ChatServerNio.DisconnectClient | src/main/java/nio/ChatServerNio.java:311-316 | new maps and writes are exactly those of the disconnect step |
| NioServer.ChatServerNio.RunCommand | src/main/java/nio/ChatServerNio.java:138-159 | the switch runs the handler the type names, or writes the unknown-command notice |
| NioServer.ChatServerNio.ProcessMessage | src/main/java/nio/ChatServerNio.java:118-166 | new maps and writes are exactly those of processing the read, and the membership invariant is kept |
| NioServer.ChatServerNio.RegisterNewChannel | src/main/java/nio/ChatServerNio.java:99-111 | refuses with nothing written when more than 50 channels are named, otherwise asks for the name; the maps are unchanged |

## Left out

- Selector, server socket, `configureBlocking`/`register`, `close`, the port prompt and `main` of the room server. An accept is the call `RegisterNewChannel`, and a read is a `ReadResult` value.
- The `isOpen()`/`isConnected()` filters and the per-recipient `IOException` catches in `broadcastToRoom`. Every member is taken to be open and every write to succeed.
- `HashMap`/`HashSet` iteration order. Broadcasts and the room list are proved for whatever order the sets yield.
- The newline `sendMessage` appends and the UTF-8 bytes of a frame on the wire. A frame is its text, or its list of room entries, and `NioFrames.Render` gives the wire text of a frame without the newline.
- All console logging.
- A write that fails in `sendMessage` (the room server) or in `ClientHandler.send` is caught and the frame is dropped. The model takes every such write to succeed.
- `ChatServer.java`, the thread-per-client server: threads and the `CopyOnWriteArrayList` shared between them. A handler's loop runs against a sequential list, and interleavings with other handlers are not modelled.
- Both chat clients and the Swing windows.
- Channel and handler identity are numbers, not object references.
- Java strings are UTF-16. Here a character is a Unicode scalar value, so lone surrogates cannot occur.
- Utf8.Decode: ill-formed input gives one U+FFFD per offending byte. Java's decoder replaces maximal subparts, which can differ in how many U+FFFD characters a malformed sequence yields.
- NioRooms.ReadResult: `Bytes` is not bounded by the 1024-byte read buffer. `WellFormedMessageFits` assumes the bound where it matters.
- NioRooms.Leave: a current room missing from `rooms` is treated as having no members. Java would fail on a null set there, but the invariant rules that state out.
- SocketMessageInputStreams.SocketMessageInputStream.ReadInto: `InputStream.read(byte[])` returns every available byte up to the array's size. Short reads on a live socket are not modelled.
- `SocketMessage(byte[], byte[])`, the receiving constructor, is the datatype constructor `SocketMessages.SocketMessage`. It stores both arrays unchanged, so it has no contract of its own.
- `getMessageLength` and `getMessageData` are the datatype's fields.
- `ClientHandler`'s `text == null` test never fires, because a read never yields null. A failed read (EOF or I/O error) is the end of `inbound` in `Session`.
