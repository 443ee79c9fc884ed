# DiscordRPC.hpp in Dafny

This project models the client side of Discord's local IPC "rich presence"
protocol as `DiscordRPC.hpp` implements it, and proves properties of that model.

- **Wire format.** A connection exchanges packets. Each packet is an 8-byte header followed by a payload. The header holds two 32-bit words, opcode then payload length, and both travel little-endian whatever the host's byte order.
- **Finding the client.** It tries the ten endpoints `<prefix>discord-ipc-0` to `discord-ipc-9` in order. `PathGenerator` hands them out.
- **Opening.** The first endpoint that answers is connected. The client then sends the handshake `{"v": 1, "client_id": <application id>}` and fires `OnConnect`.
- **Polling.** `Poll` reads packets until none is waiting. `HandlePacket` dispatches each one on its opcode:
  - READY and ERROR events in Frame packets update the connection's state and fire `OnReady` and `OnError`;
  - a Close packet stores the peer's code and message and closes the connection;
  - a Ping is answered.
- **Presence.** `UpdatePresence` builds the SET_ACTIVITY command by a series of `json[...] = ...` assignments and sends it.

The modules follow the parts of the header:

| module | file | what it holds |
|---|---|---|
| `Base` | base.dfy | `Option` and `Result`. A thrown `AL::Exception` or library exception becomes `Err`. |
| `Text` | text.dfy | Decimal rendering of unsigned numbers, for `%u` and `AL::ToString`. |
| `Wire` | wire.dfy | The header codec and the host's byte order. It also treats frames as a byte stream. |
| `Json` | json.dfy | The nlohmann value tree, `find`, `operator[]` (reading and autovivifying assignment) and the typed `get<T>` reads. |
| `Paths` | paths.dfy | The endpoint prefix and the `PathGenerator` class. |
| `Presence` | presence.dfy | The SET_ACTIVITY envelope: a specification function, and a method that builds it step by step. |
| `Envelope` | envelope.dfy | Classifying inbound messages and decoding the READY user and the error fields. |
| `Transport` | transport.dfy | A scripted stand-in for `UnixSocket<TcpSocket>`, and what one call and one send or receive loop do over its script. |
| `Framing` | framing.dfy | What the packet-level send and receive loops do, as functions of the socket's script and cursor. |
| `Rpc` | connection.dfy | The `IPCConnection` class. |

Design notes:

- **State.** The connection's state lives in fields of a class: `isOpen`, `isReady`, `user`, `socket`, `errorCode`, `errorString` and `packetCounter`. Handlers are not called. Each notification is appended to a ghost `events` log instead, in the order the connection fires it.
- **Inbound messages.** What an inbound message does to the state is specified by the functions `OnFrame` and `OnClose`, and what `HandlePacket` does with a whole frame by `Handle`. The handler methods are proved against them.
- **Send and receive loops.** A scripted socket stands in for the operating system. Every call consumes one scripted reply, and that is what makes the loops terminate. The functions `Sending`, `Receiving`, `PacketSending`, `HeaderReading` and `FrameReading` say what a loop does as a function of the script and its cursor: its result, where it leaves the cursor, and how many bytes it moves. The loop methods are proved equal to them. The `*Outcome` lemmas then say, for every script, when each result happens.
- **Polling.** `Round` is one pass of `Poll`'s loop: read a packet, then handle it. `PollRun` chains rounds until one stops the loop. `Poll` is proved equal to `PollRun`, and the `Poll*` lemmas state what every poll reads, consumes and fires. `PollRun` takes the handling of a frame as a function value, `handler`. A connection's ghost `handler` is `Handle` with the connection's parser, on every well-formed frame.
- **Integer widths.** Bytes and 32-bit words are integer subtypes. Narrowing casts are written out modulo 2^n: the `uint32` size parameter, `get<int32>`, `get<uint16>`, `get<uint8>` and the `uint64` packet counter.

## Model

| member | source | states |
|---|---|---|
| Wire.WordRoundTrip | DiscordRPC.hpp:101-105 | Decoding the four little-endian bytes of a 32-bit word gives the word back. |
| Wire.BytesRoundTrip | DiscordRPC.hpp:101-105 | Encoding the word read from four bytes gives those bytes back, so the word encoding is a bijection. |
| Wire.HeaderRoundTrip | DiscordRPC.hpp:101-105 | Decoding the 8 encoded header bytes yields the same opcode and length. |
| Wire.HeaderBytesRoundTrip | DiscordRPC.hpp:101-105 | Any 8 bytes are the encoding of the header they decode to. |
| Wire.ToLittleEndian | DiscordRPC.hpp:484-485 | On either host, the memory image of the converted word is the little-endian encoding of the original word. |
| Wire.FromLittleEndian | DiscordRPC.hpp:537-538 | On either host, the converted word is the little-endian reading of the original word's memory image. |
| Wire.HostBytesWord | DiscordRPC.hpp:537-538 | Reading 4 bytes of memory then `FromLittleEndian` gives the little-endian value, on either host. |
| Wire.SendIsLittleEndian | DiscordRPC.hpp:482-486 | The bytes of the header struct the sender fills are the little-endian encoding, whatever the host's byte order. |
| Wire.ReceiveIsLittleEndian | DiscordRPC.hpp:537-538 | The header the receiver converts out of 8 bytes is their little-endian decoding, whatever the host's byte order. |
| Wire.HostRoundTrip | DiscordRPC.hpp:482-486 | A header sent by a host of either byte order is read back unchanged by a host of either byte order. |
| Wire.TruncateToWord | DiscordRPC.hpp:470 | A length passed as `AL::uint32` keeps its value below 2^32, and otherwise is the value modulo 2^32. |
| Wire.SplitFront | DiscordRPC.hpp:512-556 | A header plus as many payload bytes as it announces are split off the front of a stream as exactly that frame. |
| Wire.SplitStream | DiscordRPC.hpp:316-342 | Splitting a stream built from well-formed frames recovers those frames, in order, followed by the split of the rest. |
| Text.DecimalStringWellFormed | DiscordRPC.hpp:359 | A rendered number is a non-empty run of digits without a leading zero. |
| Text.DecimalRoundTrip | DiscordRPC.hpp:359 | Reading a rendered number back gives the number. |
| Text.DecimalStringInjective | DiscordRPC.hpp:163-167 | Distinct numbers render differently. |
| Json.Assign | DiscordRPC.hpp:362-396 | `j[k0]...[kn] = v` leaves an object holding `k0`, and keeps every other member the object had. |
| Json.LookupMember | DiscordRPC.hpp:362-396 | Following a path into an object follows its first key, then the rest of the path. |
| Json.LookupAssign | DiscordRPC.hpp:362-396 | After `j[k0]...[kn] = v`, following that path finds `v`. |
| Transport.Call | DiscordRPC.hpp:490 | One `Send` or `Receive` call moves no more than was asked and no more than is there. It succeeds exactly on a `Done` reply; a failed call moves nothing. It uses one reply, or none when the script is used up. |
| Transport.Sending | DiscordRPC.hpp:488-495 | A send loop succeeds exactly when all `n` bytes went out. It never writes more than `n`, and fails only with the transport's own error. |
| Transport.Receiving | DiscordRPC.hpp:546-555 | A receive loop succeeds exactly when all `n` bytes came in. It never takes more than asked or than the inbox holds. |
| Transport.SendingOutcome | DiscordRPC.hpp:488-495 | A send loop succeeds iff the `Done` replies at the cursor let all `n` bytes through. Otherwise its result is the first reply that is not `Done`: false for a closed peer, an error for a throw. |
| Transport.ReceivingOutcome | DiscordRPC.hpp:546-555 | A receive loop succeeds iff the inbox holds `n` bytes and the `Done` replies at the cursor let them through. Otherwise its result is the first reply that is not `Done`. |
| Framing.PacketSending | DiscordRPC.hpp:480-507 | A packet send succeeds exactly when all 8 header bytes and all `size` payload bytes went out. |
| Framing.PacketSendingOutcome | DiscordRPC.hpp:488-504 | A packet goes out iff the replies cover the header and then the payload. Otherwise it reports the first failed reply of the header's loop, or else of the payload's loop. |
| Framing.HeaderReading | DiscordRPC.hpp:512-541 | A whole header takes 8 inbox bytes and is their little-endian decoding. "Would block" takes nothing. Any outcome but a closed peer uses at least one reply. |
| Framing.HeaderReadingOutcome | DiscordRPC.hpp:516-535 | "Would block" iff the first reply succeeds without a byte. A whole header iff that reply delivers bytes and the inbox and replies cover 8 bytes. Otherwise the first failed reply: 0 for a closed peer, a throw passed on. |
| Framing.FrameReading | DiscordRPC.hpp:316-334 | A whole frame is well formed and is exactly the inbox bytes it took. "Would block" takes nothing. Any outcome but a closed peer uses at least one reply. |
| Framing.FrameReadingOutcome | DiscordRPC.hpp:316-334 | A packet read would block iff its header read would block. It yields a frame iff a whole header arrives and the inbox and the replies after it cover the payload length the header announces. |
| Framing.FrameReadingSplits | DiscordRPC.hpp:316-334 | A frame read whole is the first frame the inbox splits into. |
| Envelope.ToInt32 | DiscordRPC.hpp:636 | Narrowing to `int32` keeps in-range values and otherwise agrees modulo 2^32. |
| Envelope.ToUInt16 | DiscordRPC.hpp:617 | Narrowing to `uint16` keeps in-range values and otherwise agrees modulo 2^16. |
| Envelope.ToUInt8 | DiscordRPC.hpp:619 | Narrowing to `uint8` keeps in-range values and otherwise agrees modulo 2^8. |
| Envelope.Classify | DiscordRPC.hpp:594-606 | A message is READY iff `cmd` is the string DISPATCH and `evt` the string READY. It is ERROR iff `cmd` is any string and `evt` is ERROR. It carries `data.user` or `data` accordingly. |
| Envelope.DecodeUser | DiscordRPC.hpp:612-622 | Decoding succeeds iff each of the eight members exists with a kind `get` converts; otherwise it is a type error. |
| Envelope.UserRoundTrip | DiscordRPC.hpp:612-622 | Decoding the user object the client sends yields that user. |
| Envelope.DecodeUserFields | DiscordRPC.hpp:612-622 | A decoded user takes each field from the member of the same role. `flags` and `premium_type` are narrowed numbers, or 1 or 0 for a boolean. |
| Envelope.ErrorCode | DiscordRPC.hpp:636 | `code` is read iff it exists as a number or boolean. A number is narrowed to `int32`; a boolean gives 1 or 0. |
| Envelope.ErrorMessage | DiscordRPC.hpp:637 | `message` is read iff it exists as a string. |
| Paths.FirstFound | DiscordRPC.hpp:139-145 | Yields the value of the first listed variable that is set, with all earlier ones unset. With none set, it yields the fallback. |
| Paths.Prefix | DiscordRPC.hpp:138-150 | On Windows the prefix is the pipe namespace `\\?\pipe\`; on Linux it ends in `/`. |
| Paths.LinuxPrefixChoice | DiscordRPC.hpp:139-147 | The Linux prefix is XDG_RUNTIME_DIR, else TMPDIR, else TMP, else TEMP, else `/tmp`, followed by `/`. |
| Paths.CandidatesDistinct | DiscordRPC.hpp:163-167 | Different endpoint numbers give different paths. |
| Paths.PathGenerator.Init | DiscordRPC.hpp:134-153 | Restarts the count at 0, fixes the prefix for the platform and marks the generator initialised. |
| Paths.PathGenerator.Next | DiscordRPC.hpp:155-170 | Succeeds iff fewer than ten paths were handed out. On success it yields `<prefix>discord-ipc-<id>` and advances `id`; after that it leaves both the caller's value and `id` untouched. |
| Presence.ActivityTexts | DiscordRPC.hpp:363-364 | `details` is always the Header text and `state` the Details text. |
| Presence.ActivityAssets | DiscordRPC.hpp:366-370 | The activity has `assets` iff some image key or text is non-empty, holding those members. |
| Presence.ActivityButtons | DiscordRPC.hpp:372-393 | The activity has `buttons` iff the list is non-empty, holding one `{url, label}` object per button, in order. |
| Presence.ActivityTimestamps | DiscordRPC.hpp:395-396 | The activity has `timestamps` iff a start or end time is non-zero. |
| Presence.ActivityKeys | DiscordRPC.hpp:363-396 | The activity holds no members besides details, state, assets, buttons and timestamps. |
| Presence.PresenceCommand | DiscordRPC.hpp:356-362 | `cmd` is SET_ACTIVITY, `args.pid` is the process id, and `nonce` is the counter in decimal, which reads back as the counter. |
| Presence.PresenceTexts | DiscordRPC.hpp:363-364 | In the envelope, `args.activity.details` is the Header and `args.activity.state` the Details. |
| Presence.AssetMembers | DiscordRPC.hpp:366-370 | Each of the four asset members is present iff its string is non-empty, and then holds it. |
| Presence.PresenceAsset | DiscordRPC.hpp:366-370 | `args.activity.assets.<key>` is found iff that image string is non-empty, and holds it. |
| Presence.PresenceAssetGroup | DiscordRPC.hpp:366-370 | `args.activity.assets` is found iff any of the four image strings is non-empty. |
| Presence.PresenceButtons | DiscordRPC.hpp:372-393 | `args.activity.buttons` is found iff there are buttons, and is their array in order. |
| Presence.PresenceTimestamps | DiscordRPC.hpp:395-396 | `timestamps.start` and `timestamps.end` are each found iff their seconds value is non-zero, and hold it. |
| Presence.BuildButtons | DiscordRPC.hpp:374-392 | Filling the preallocated array one button after the other yields exactly the specified button objects. |
| Presence.AssignPid | DiscordRPC.hpp:362 | Assigning `args.pid` to the two-member start object creates `args` holding the pid. |
| Presence.AssignDetails | DiscordRPC.hpp:363 | Assigning `args.activity.details` creates the activity object. |
| Presence.AssignMember | DiscordRPC.hpp:364 | Assigning `args.activity.<key>` is possible and sets exactly that activity member. |
| Presence.AssignGroupMember | DiscordRPC.hpp:366-370 | Assigning `args.activity.<group>.<key>` adds the key to the group, creating the group if absent. |
| Presence.MemberStep | DiscordRPC.hpp:374 | Assigning `args.activity.<key>` adds the member to the activity map. |
| Presence.GroupStep | DiscordRPC.hpp:366-370 | A conditional group assignment adds its member, creating the group, exactly when its condition holds. |
| Presence.GroupAdd | DiscordRPC.hpp:366-370 | The assigning case of `GroupStep`. |
| Presence.AddAssets | DiscordRPC.hpp:366-370 | The four conditional asset assignments add exactly the specified `assets` group. |
| Presence.AddButtons | DiscordRPC.hpp:372-393 | The conditional buttons assignment adds exactly the specified `buttons` member. |
| Presence.AddTimestamps | DiscordRPC.hpp:395-396 | The two conditional time assignments add exactly the specified `timestamps` group. |
| Presence.BuildPresence | DiscordRPC.hpp:356-396 | The whole assignment sequence yields exactly the specified envelope, so every presence property above holds of what is built. |
| Rpc.FirstAnswering | DiscordRPC.hpp:428-455 | Every endpoint before the index refuses, and the endpoint at the index, if any, does not. |
| Rpc.JsonFrame | DiscordRPC.hpp:466-470 | A JSON packet is a well-formed frame with the given opcode. Its payload is a prefix of the dumped text, and all of it when the length fits 32 bits. |
| Rpc.PongFrame | DiscordRPC.hpp:661-675 | The reply to a ping is a well-formed Frame packet whose payload is a prefix of the Pong header followed by the ping bytes. |
| Rpc.PongEchoes | DiscordRPC.hpp:661-681 | The reply to a ping is a single Frame packet of length 8 + n. Its payload is a Pong header carrying the ping's length n, followed by the ping bytes. It splits back off the wire as that one frame. |
| Rpc.TakeError | DiscordRPC.hpp:632-659 | Succeeds iff `code` and `message` can both be read. `code` is stored whenever it can be read, even if `message` then throws. `message` is stored only with it. Readiness and the user are untouched. `OnError` fires only after both reads, when asked for. |
| Rpc.OnFrame | DiscordRPC.hpp:588-648 | A payload that does not parse throws and changes nothing. A Frame packet never reports the connection closed. It fires nothing when it throws, and at most one `OnReady` or `OnError`. Readiness or the user changes only together with `OnReady`, from not ready to ready. |
| Rpc.OnClose | DiscordRPC.hpp:650-659 | A Close packet never keeps the connection and fires nothing. It reports the connection closed iff its message has a readable `code` and `message`, and otherwise throws. Readiness and the user are untouched. |
| Rpc.ReadyIsLatched | DiscordRPC.hpp:604-630 | Once ready, any message other than an ERROR event leaves the status unchanged and fires nothing. |
| Rpc.ReadyDecodesUser | DiscordRPC.hpp:604-628 | On a connection not yet ready, any READY event whose `data.user` decodes sets the ready flag and that user, and fires `OnReady` with it. A user that does not decode throws and changes nothing. |
| Rpc.ReadyTakesUser | DiscordRPC.hpp:604-628 | The READY event built from a user's own object makes a connection that was not ready ready with exactly that user, and fires `OnReady` with it. |
| Rpc.ErrorEventTakesError | DiscordRPC.hpp:632-643 | Any ERROR event that carries `data` is read as an error report, as `TakeError` says, whatever its `cmd` and readiness. |
| Rpc.ErrorIgnoresCommand | DiscordRPC.hpp:632-643 | An ERROR event with any string `cmd` stores the code and message, fires `OnError` and keeps the connection. |
| Rpc.ErrorCodeOutlivesBadMessage | DiscordRPC.hpp:636-637 | When an ERROR event's `message` cannot be read, the packet throws, but its code has already been stored. |
| Rpc.CloseTakesError | DiscordRPC.hpp:650-659 | Any Close packet that parses is read as an error report, as `TakeError` says, that ends the connection and fires nothing. |
| Rpc.CloseStoresReason | DiscordRPC.hpp:650-659 | A Close packet stores its code and message and reports the connection closed. |
| Rpc.Handle | DiscordRPC.hpp:581-688 | Frame packets react as `OnFrame`, Close packets as `OnClose`. Only a Ping writes: a prefix of the Pong frame, all of it iff it succeeds. Handshake, Pong and unknown opcodes succeed and change nothing. |
| Rpc.HandleReadiesOnce | DiscordRPC.hpp:604-628 | Handling one frame fires `OnReady` at most once, never on a ready connection, and then leaves the connection ready. A ready connection stays ready with the same user. |
| Rpc.Round | DiscordRPC.hpp:316-341 | A round goes on only after a packet was handled with success. It never moves the receive cursor backwards and only appends to what was sent. |
| Rpc.RoundSendsForward | DiscordRPC.hpp:316-341 | With `Handle` handling the frame, a round never moves the send cursor backwards either. |
| Rpc.RoundReads | DiscordRPC.hpp:316-336 | A round either reads no frame and stops, leaving the inbox alone when it reports true, or reads the first well-formed frame the inbox splits into and goes on iff handling it succeeded. |
| Rpc.PollRun | DiscordRPC.hpp:306-345 | A poll never moves the receive cursor backwards and only appends to what was sent. |
| Rpc.PollReadsFrames | DiscordRPC.hpp:316-342 | The frames a poll reads are well formed, and their bytes are a prefix of the inbox. |
| Rpc.PollConsumesFrames | DiscordRPC.hpp:316-344 | A poll that returns true has consumed exactly the bytes of the frames it read. |
| Rpc.PollSplitsInbox | DiscordRPC.hpp:316-342 | The frames a poll reads are, in arrival order, the first frames the inbox splits into. |
| Rpc.PollReadsStream | DiscordRPC.hpp:316-342 | When the peer sent well-formed frames one after the other, a poll reads the first of them, in the order they were sent. |
| Rpc.PollReadiesOnce | DiscordRPC.hpp:604-628 | Within one poll `OnReady` fires at most once, never on a ready connection, and the connection is then ready. A ready connection stays ready with the same user. |
| Rpc.IPCConnection.constructor | DiscordRPC.hpp:195-200 | A new connection is closed and not ready, has fired nothing, and keeps its application id. |
| Rpc.IPCConnection.SendPacket | DiscordRPC.hpp:480-507 | The result and the send cursor are those `PacketSending` gives. The wire gained exactly the bytes it says of the little-endian header followed by the first `size` payload bytes: all of them on success, a proper prefix on failure. |
| Rpc.IPCConnection.SendAll | DiscordRPC.hpp:488-495 | The result and the send cursor are those `Sending` gives, and the wire gained exactly the first bytes of the data that it says went out. |
| Rpc.IPCConnection.SendJsonPacket | DiscordRPC.hpp:466-477 | The dumped text goes out as one packet, its length cut to 32 bits, as `PacketSending` says. A dump that throws sends nothing. |
| Rpc.IPCConnection.SendHandshake | DiscordRPC.hpp:561-576 | Sends `{"v": 1, "client_id": <application id>}` as a Handshake packet. |
| Rpc.IPCConnection.ReceivePacketHeader | DiscordRPC.hpp:512-541 | The result, the receive cursor and the bytes consumed are those `HeaderReading` gives. |
| Rpc.IPCConnection.ReceivePacketPayload | DiscordRPC.hpp:544-556 | The result, the receive cursor and the bytes consumed are those `Receiving` gives. The buffer starts with the consumed inbox bytes. |
| Rpc.IPCConnection.ReceiveFrame | DiscordRPC.hpp:316-334 | The result, the receive cursor and the bytes consumed are those `FrameReading` gives. |
| Rpc.IPCConnection.HandleFrame | DiscordRPC.hpp:588-648 | The result, the new status and the events fired are those `OnFrame` specifies. |
| Rpc.IPCConnection.HandleClose | DiscordRPC.hpp:650-659 | The result and the new status are those `OnClose` specifies. |
| Rpc.IPCConnection.ReadError | DiscordRPC.hpp:636-637 | Stores `code`, then `message`, as `TakeError` says. A failed read of `message` keeps the new code. |
| Rpc.IPCConnection.HandlePing | DiscordRPC.hpp:661-681 | Sends `PongFrame` of the ping bytes, as `PacketSending` says. |
| Rpc.IPCConnection.HandlePacket | DiscordRPC.hpp:581-688 | The result, the new status, the events fired and the bytes written are those `Handle` gives. |
| Rpc.IPCConnection.CloseConnection | DiscordRPC.hpp:458-462 | The socket is closed. |
| Rpc.IPCConnection.Close | DiscordRPC.hpp:288-302 | An open connection closes its socket, clears the open and ready flags, and fires `OnDisconnect` with the stored code and message, once. A closed connection is left as it is. |
| Rpc.IPCConnection.OpenConnection | DiscordRPC.hpp:409-456 | Tries endpoints in order and stops at the first that does not refuse: true if it accepts, an exception if it throws. When all ten refuse, it yields false. |
| Rpc.IPCConnection.Open | DiscordRPC.hpp:223-286 | Resets the error code, error text and counter, and leaves the connection not ready in every case. No endpoint gives false and stays closed; a throwing endpoint throws and stays closed. An accepting endpoint yields a fresh socket with that peer's send and receive scripts and inbox, nothing yet received, and the handshake outcome. |
| Rpc.IPCConnection.Establish | DiscordRPC.hpp:252-285 | Never makes the connection ready. Ok(true) only after the whole handshake was written: the connection is then open, with `OnConnect` fired. A dump that throws escapes with the socket still connected. A handshake not taken whole closes the socket and throws. A throwing `OnConnect` closes the connection again and rethrows. |
| Rpc.IPCConnection.PollRound | DiscordRPC.hpp:316-341 | One pass of the loop does what `Round` gives. A round that reports false has closed the connection, with `OnDisconnect` fired last. |
| Rpc.IPCConnection.Poll | DiscordRPC.hpp:306-345 | The result, the status, the events fired and the socket are those `PollRun` gives, with `Handle` handling each frame. False means the connection was closed, with `OnDisconnect` fired last. |
| Rpc.IPCConnection.UpdatePresence | DiscordRPC.hpp:349-405 | Sends the specified envelope with the counter's old value as nonce. The counter advances by one modulo 2^64 whether or not the send succeeds. |

## Left out

- **Operating-system I/O.** `UnixSocket<TcpSocket>` is not part of this model. A `Transport.Socket` whose replies come from a script stands in for it. A send or receive call moves at most the count its scripted reply allows. An exhausted script behaves like a peer that has closed.
- **JSON text.** The nlohmann library's `parse` and `dump` are not part of this model. They are functions the connection is given. `None` stands for the library throwing, including `dump` on text that is not UTF-8.
- **Floating-point numbers.** JSON floats are not modelled. An integer `get<T>` of a float is therefore out of scope.
- **Host inputs.** The platform, the environment variables, the process id and `Timestamp::ToSeconds` are parameters. `GetEnvironmentVariable` is taken to succeed exactly when the variable is set, even to the empty string.
- **Source defects left as intended.** DiscordRPC.hpp:144 lacks its semicolon; the model takes the evident assignment of `/tmp`.
- **Rpc.IPCConnection.constructor:** sets `errorCode`, `packetCounter` and `socket` to 0 or null. The source leaves them uninitialised until `Open`.
- **Paths.PathGenerator.Init:** cannot throw. Reading the environment cannot fail in this model.
- **Memory.** `new` and `delete` of the socket and the destructor are not modelled. After a failed `Open` the `socket` field still refers to the last socket tried; no later operation reads it before the next `Open`.
- **Exceptions.** Their messages and their wrapping into new exceptions are not modelled. Only the kind of failure is kept, as an `Error` value.
- **Event handlers.** Handler bodies are not modelled; each call is an entry in the ghost `events` log.
  - An `OnConnect` handler that throws is the `connectFails` input of `Open`.
  - The other handlers are taken not to throw.
- **`AL_ASSERT` checks.** `!IsOpen()` in `Open`, and `IsOpen()` in `Poll` and `UpdatePresence`, are preconditions.
- **Zero-length payloads.** `&buffer[0]` on an empty payload array is read as an empty payload.
- **UserFlags.** The bit-mask operators of `UserFlags` and the `UserPremiumTypes` enumerators are not modelled; the fields hold the narrowed integers.
- **Rpc.PongEchoes:** is stated only for pings with fewer than 2^32 - 8 bytes. `Rpc.IPCConnection.HandlePing` does model longer pings as the source handles them: the 32-bit size parameter truncates the reply.
- **Strings cut at NUL.** The source passes every text through `GetCString()` or `c_str()` (DiscordRPC.hpp:363-370, 386-387, 566, 615-621, 637, 657), so a text holding a `'\0'` character is cut there. For example, an image key `"\0x"` passes the emptiness test but is sent as `""`. The model keeps strings whole.
- **Rpc.IPCConnection.ReceivePacketHeader:** reads the rest of a header into a second array through `ReceivePacketPayload`, then joins the two parts. The source's loop fills the header struct in place. Both make the same calls on the socket with the same counts.
- **Rpc.IPCConnection.PollRound:** has no counterpart function in the source. It is the body of `Poll`'s loop (DiscordRPC.hpp:316-341), split out so that `Poll` only chains rounds.
- **Handler as a value.** `PollRun` takes what handling a frame does as a ghost function value. The connection's `handler` agrees with `Handle` on every well-formed frame, which are the only frames a read yields; the value it has on other frames is never used.
