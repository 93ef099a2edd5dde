# fserv: a verified model of the chat server

fserv is a chat server. Clients speak WebSocket to it; connections, channels and
names live in a registry that scripted handlers change; logins travel through two
helper threads; data is hashed, encoded, converted to Lua and saved to a file.
This project models these parts in Dafny and proves what they promise. Classes
and methods with loops stand where the server changes fields in place; every such
method is proved against a function of its inputs or of its old state, and the
lemmas say what those functions keep.

| module | file | part of the server |
|---|---|---|
| `Frames`, `Bytes` | frames.dfy | the WebSocket frame codec, both directions |
| `Streams` | streams.dfy | the read loop over any chunking of the byte stream |
| `Connections` | connection.dfy | one connection: read buffer, write queue, callbacks |
| `WireLaws` | wire_laws.dfy | formats, limits and commands in plain numbers |
| `Handshake` | handshake.dfy | header lines and the accept value |
| `RegistrySpec`, `RegistryRuns` | registry_spec.dfy, registry_runs.dfy | connections, names and channels as one state with one step per event, and its runs |
| `RegistryLaws` | registry_laws.dfy | what each event does and when it may, on one step and over runs |
| `Registry` | registry.dfy | the overlapping structures that the server keeps, refining that state |
| `ServerLaws` | server_laws.dfy | the same of a running server's own objects |
| `Relay` | relay.dfy | the login relay: three threads, queues, coalescing wakeups |
| `RelayLaws` | relay_laws.dfy | which requests are accepted, dropped and answered |
| `LoginPath` | login_path.dfy | registry and relay side by side |
| `Md5`, `Sha1`, `Base64` and their `Spec` modules, `Blocks` | md5.dfy, sha1.dfy, base64.dfy, blocks.dfy | streaming hashes and table-driven Base64 against the standards |
| `Bans` | bans.dfy | lazily expired bans and timeouts |
| `Throttle` | throttle.dfy | the flood timers |
| `ThrottleLaws` | throttle_laws.dfy | the answers of a conversation, from its events alone |
| `JsonLua` | json_lua.dfy | JSON to Lua tables and back |
| `PersistenceSpec`, `Persistence` | persistence.dfy | saving and loading channels |
| `Sha1Laws`, `Sha1Answers`, `Md5Answers`, `Base64Answers`, `HandshakeAnswers` | sha1_laws.dfy, sha1_answers.dfy, md5_answers.dfy, base64_answers.dfy, handshake_answers.dfy | the standards' own examples, and rotation and constants as arithmetic |
| `JsonAnswers`, `PersistenceLaws` | json_answers.dfy, persistence_laws.dfy | names and fields of tables and files, spelled out |

The modules whose names end in `Laws` and `Answers` say what the functions of the
others compute without naming them: in numbers, names and field values, by the
examples of the standards, or by who may do what. A function that a class and its
specification share is pinned down there.

Properties that do not hold without exception are stated with the exact condition
under which they do: one read event delivers everything buffered
(`Streams.DeliversAllExactlyWhen`), all requests of the relay are delivered
(`Relay.AlwaysDeliversExactlyWhen`, and run by run
`Relay.AtRestDeliveredExactlyWhen`), the handshake hashes what the standard says
(`Handshake.HashedTextExactlyWhen`), SHA-1 pads as the standard does
(`Sha1.PaddingExactlyWhen`), JSON comes back from Lua
(`JsonLua.RoundTripExactly`), and channels come back from the file
(`PersistenceSpec.LoadAfterSave`, `PersistenceSpec.FileComesBack`).

Where comments or documents and code differ, the code is followed. README.md:169
of the repository asks that a connection's channel list be kept in sync with the
channels' own lists; `Registry.ServerState.MembershipIsSymmetric` says that it is.
A channel's destructor asserts that nobody is left in it;
`Registry.ServerState.RemoveChannel` carries that as a precondition, which every
caller is proved to meet. The address cap is a floating-point setting compared
with "at least", so a cap of 2.5 admits three connections; the bound is stated
for any real cap. A second login in the moment between the closing and the
teardown of an older connection runs the handler for departures twice; the model
allows it and proves that nothing depends on it.

## Model

| member | source | states |
|---|---|---|
| `Frames.ParseWire` | src/websocket.cpp:156-241 | For any mask, any accepted opcode and any payload up to 0x80000 bytes, reading a masked client frame followed by anything gives exactly its kind, its unmasked payload and what follows |
| `Frames.CompletedIsFrame` | src/websocket.cpp:156-241 | Conversely, every buffer on which a frame is completed begins with the wire form of exactly one well-formed frame: nothing else is ever taken for a frame |
| `Frames.ParseStable` | src/websocket.cpp:156-241 | A verdict other than "incomplete" never changes when bytes are appended; they are only added to the remainder |
| `Frames.FrameConsumes` | src/websocket.cpp:156-241 | Every completed frame takes at least six bytes off the buffer, so reading terminates |
| `Frames.MaskTwice` | src/websocket.cpp:210-240 | Masking is its own inverse (section 5.3 of RFC 6455) |
| `Frames.WireLength` | src/websocket.cpp:165-208 | The 7-bit, 16-bit and 64-bit length fields of a client frame all give back the payload length |
| `Frames.ClientParseWire` | src/websocket.cpp:243-265 | A strict client (unmasked, no reserved bits, shortest length encoding, section 5.2 of RFC 6455) reads back opcode, payload and remainder of every frame that the server writes |
| `Frames.ClientWaitsOnPrefix` | src/websocket.cpp:243-265 | On every proper prefix of a server frame that client waits: no prefix is taken for a frame or refused |
| `Frames.ClientReadsPrefix` | src/websocket.cpp:243-265 | Of any prefix of the bytes of a list of frames, the client reads the first frames of the list, all that are complete, and refuses nothing |
| `Streams.IdealSplit` | src/server.cpp:134-200 | The ideal reading of a whole stream composes over any cut: decode the first part, carry the rest over, decode on |
| `Streams.HandleFramesAccounts` | src/server.cpp:134-200 | One read event (at most nine frames, ending after a ping or pong) loses, reorders and invents nothing: its events followed by the ideal reading of the bytes left are the ideal reading of the buffer, with the same reason for closing |
| `Streams.DeliversAllExactlyWhen` | src/server.cpp:134-149 | One read event delivers every complete frame in the buffer if and only if there are at most as many as the budget and no ping or pong comes before another frame |
| `Streams.ReadLoopRefinesIdeal` | src/server.cpp:105-200 | For every chunking of the client's bytes, the events handled so far followed by the ideal reading of the buffer are the ideal reading of everything received, with the same terminal error or close |
| `Streams.ChunkingIsUnobservable` | src/server.cpp:105-200 | Two chunkings of the same bytes never lead to different events: one list is a prefix of the other, and two hang-ups have the same reason after the same events |
| `Connections.PushHeader` | src/websocket.cpp:243-262 | The header bytes of a server frame: FIN and opcode, then the length in its shortest form |
| `Connections.SendMessage` | src/websocket.cpp:243-265 | Exactly the wire form of the frame; a payload of 2^32 bytes or more is cut to its length modulo 2^32, as the 32-bit length does |
| `Connections.Unmask` | src/websocket.cpp:210-240 | Unmasking byte by byte gives the payload under the repeated four-byte key |
| `Connections.ReadLength` | src/websocket.cpp:187-205 | Shifting the extended length bytes together gives the number that they spell high-order first |
| `Connections.Connection.Receive` | src/websocket.cpp:156-241 | Result, output, remaining buffer and queue are those of the frame at the front; a ping queues exactly one pong with its unmasked payload, and nothing else queues anything |
| `Connections.Connection.SendPong` | src/websocket.cpp:271-273 | Queues one pong frame with the payload of the ping, whatever the queue length |
| `Connections.Connection.Send` | src/connection.cpp:75-82 | A text is queued as one whole frame, or refused as a whole exactly when the connection is closed or more than 150 buffers wait |
| `Connections.OfferAllKeepsFirst` | src/connection.cpp:75-82 | Of any number of texts offered to an open connection, the first ones are accepted, as many as the bound leaves room for, and the others leave no trace |
| `Connections.Connection.Dispatch` | src/server.cpp:165-196 | A command's replies and its error message are queued in order, and the delayed close is pending afterwards exactly if it was or this command, with its return code and the identification state, calls for it |
| `Connections.Connection.RunCommand` | src/server.cpp:171-190 | What a command sends is offered to the queue in order |
| `Connections.Connection.Report` | src/server.cpp:191-196 | Every code but OK is reported; only the two worst also close |
| `Connections.Connection.HandleFrame` | src/server.cpp:136-196 | One turn of the read loop does to buffer, events, queue and closing what the specification says for the frame at the front |
| `Connections.Connection.ReadFrames` | src/server.cpp:130-200 | One read event does what the specification says for the whole buffer: its state is that of ReadEvent, and exactly the answers to its events have been queued, in order |
| `Connections.Connection.ReadReady` | src/server.cpp:105-200 | The whole callback, with would-block, end of stream, error and overflow of the read buffer |
| `Connections.Connection.Advance` | src/server.cpp:214-233 | When the kernel took some bytes of the front buffer, bytes written plus bytes still queued stay the accepted bytes |
| `Connections.Connection.WriteReady` | src/server.cpp:205-237 | Conservation under any partial sends; the buffers before the last call leave whole, the last call ends the event as its outcome says, and an empty queue disarms the watcher |
| `Connections.Connection.PrepareShutdown` | src/server.cpp:570-605 | Closing stops both watchers and breaks no invariant, however often it happens |
| `Connections.Connection.SetDelayClose` | src/connection.cpp:149-155 | A delayed close stops reading |
| `Connections.Connection.DelayedClose` | src/server.cpp:271-280 | The timer of a delayed close closes the connection |
| `Connections.Connection.Upgrade` | src/server.cpp:340-368 | After the handshake the response is queued and reading starts afresh from an empty buffer |
| `Connections.Connection.ClientSeesAcceptedFrames` | src/server.cpp:205-237 | End to end: of the bytes after the handshake response, the client reads a prefix of exactly the frames accepted since, in order |
| `Connections.Connection.constructor` | src/connection.cpp:40-64 | A new connection has sent, accepted and handled nothing and is reading |
| `Handshake.FieldsMean` | src/websocket.cpp:73-91 | The header lines of a request are read as the fields sent: the last of a name counts, the case of names does not |
| `Handshake.RequestMeans` | src/websocket.cpp:66-91 | The same for a whole request with its request line |
| `Handshake.ParseHeaders` | src/websocket.cpp:70-91 | The loop that takes lines off the remainder computes that reading |
| `Handshake.ComputeAccept` | src/websocket.cpp:138-148 | The Base64 of the SHA-1 of the key, as far as its first zero byte, and the GUID |
| `Handshake.HashedTextExactlyWhen` | src/websocket.cpp:138-144 | The hashed text is the one that section 4.2.2 of RFC 6455 calls for if and only if the key holds no zero byte |
| `Handshake.AcceptValueExactlyWhen` | src/websocket.cpp:138-148 | The accept value is the standard's if and only if both texts have one digest, so for every key without a zero byte |
| `Handshake.ZeroByteCutsTheKey` | src/websocket.cpp:138-144 | A key on which the hashed text is not the standard's |
| `Handshake.Accept` | src/websocket.cpp:63-114 | Incomplete exactly before the empty line; accepted exactly with version and a key that is not empty; the answer and the forwarded address |
| `RegistrySpec.LeaveRoomKeeps` | script/main.lua:67-83 | Leaving a channel, with the channel vanishing after its last member, keeps every invariant |
| `RegistrySpec.EnterRoomKeeps` | script/main.lua:87-98 | Entering keeps every invariant if the ban check was passed or a privilege overrode it |
| `RegistrySpec.DestroyRoomKeeps` | src/lua_channel.cpp:339-372 | Destroying a channel keeps every invariant |
| `RegistrySpec.DisplaceKeeps` | script/main.lua:1756-1773 | Displacing the holder of a name keeps every invariant, frees exactly that name and lowers exactly its address count |
| `RegistrySpec.TeardownKeeps` | src/server.cpp:252-269 | The late teardown of a closed connection keeps every invariant |
| `RegistrySpec.OutlawKeeps` | script/main.lua:336-398 | Banning or timing out, with the removal of the target, leaves no member newly banned |
| `RegistryRuns.StepKeeps` | script/main.lua:1743-1957 | Every event keeps every invariant: unique names, live members, enforced bans, the address cap, members only while registered and open |
| `RegistryRuns.RunKeeps` | script/main.lua:1743-1957 | So does every run |
| `RegistryRuns.AddressCapHolds` | script/main.lua:1748-1756 | Over every run no address has more registered connections than the fixed cap allows; with a whole-number cap, no more than the cap |
| `RegistryRuns.ExemptionIsEarned` | script/main.lua:961-999 | A membership begins in spite of a ban only as owner, as admin or global moderator, or by the staff-room auto-join |
| `RegistryRuns.BannedMembersJoinedPrivileged` | script/main.lua:961-999 | Over every run with a clock that does not go back: a member with an active ban or timeout joined at some event of the run with such a privilege and has been a member ever since |
| `RegistryRuns.NameIsLostOnlyBy` | src/server.cpp:252-269 | One event takes a name away only as the teardown of its own closed connection or as the login of another connection under it |
| `RegistryRuns.NameIsLostOnceTaken` | src/server.cpp:252-269 | The same over runs: a registration that is gone at the end was taken at some event by one of these two |
| `RegistryRuns.HolderKeepsName` | src/server.cpp:252-269 | As long as neither happens the name stays with its holder and with nobody else; so the late teardown of a displaced login never removes the newer one |
| `RegistryRuns.Standings` | src/lua_connection.cpp:363-393 | Exactly which events change whether a connection is named, under what, and whether it may still log in |
| `RegistryRuns.Newcomers` | src/server.cpp:373-418 | A new connection appears only by being accepted, under an identity never used before |
| `RegistryRuns.SpentForever` | src/native_command.cpp:152-222 | A connection that was answered and holds no name never gets one again, nor a place in any channel |
| `Registry.Channel.Join` | src/channel.cpp:91-98 | Joining counts up and raises the maximum |
| `Registry.Channel.Part` | src/channel.cpp:100-106 | Parting counts down and takes both sides of the membership away |
| `Registry.ServerState.JoinChannel` | script/main.lua:87-98 | The new membership appears in both structures, and the registry means that it began |
| `Registry.ServerState.Part` | src/channel.cpp:100-106 | The membership is gone from both structures |
| `Registry.ServerState.PartChannel` | script/main.lua:67-83 | Leaving, with the removal of a private channel after its last member |
| `Registry.ServerState.DestroyChannel` | src/lua_channel.cpp:339-372 | Every member has left and the channel is gone from the map |
| `Registry.ServerState.RemoveChannel` | src/server_state.cpp:444-448 | A channel leaves the map only with no participants, which is what its destructor asserts |
| `Registry.ServerState.AddChannel` | src/server_state.cpp:434-442 | A new channel is stored under its lower-case name |
| `Registry.ServerState.LeaveChannels` | script/main.lua:1944-1957 | After the loop over its channel list a connection is in no channel |
| `Registry.ServerState.PreDisconnect` | script/main.lua:1944-1957 | Leaving every channel and losing every invitation, as often as it runs |
| `Registry.ServerState.PrepareShutdown` | src/server.cpp:570-605 | An open connection leaves its channels and is marked closed; a closed one is left alone |
| `Registry.ServerState.AddConnection` | src/server_state.cpp:367-374 | The name map, both user counts and the counter of the address after registration |
| `Registry.ServerState.RemoveConnection` | src/server_state.cpp:376-390 | The same after removal; an unknown name changes nothing |
| `Registry.ServerState.SetIdent` | src/lua_connection.cpp:363-393 | A nameless connection moves from the list to the map; a named one is refused |
| `Registry.ServerState.Closef` | src/lua_connection.cpp:338-350 | A named connection goes back to the list and its name is free |
| `Registry.ServerState.ShutdownConnection` | src/server.cpp:252-269 | Teardown takes the connection out of the structure it is in, and of no other |
| `Registry.ServerState.ListenCallback` | src/server.cpp:373-418 | A new connection is on the list of the nameless |
| `Registry.ServerState.GetConnectionIPCount` | src/server_state.cpp:399-401 | The number of registered connections from that address, though asking may store a zero |
| `Registry.ServerState.GeneratePrivateChannelID` | src/server_state.cpp:403-432 | An identifier returned is not in use |
| `Registry.ServerState.FreeTheName` | script/main.lua:1756-1773 | After the old holder, if any, is displaced, nobody has the name |
| `Registry.ServerState.TakeName` | script/main.lua:1774-1942 | The login itself, the roles that come with it and the staff-room auto-join |
| `Registry.ServerState.IdentCallback` | script/main.lua:1745-1942 | The cap, the old holder, the bans and the login, in this order |
| `Registry.ServerState.ProcessLogin` | src/server.cpp:488-506 | A failed answer or a failed callback closes the connection |
| `Registry.ServerState.ProcessWakeup` | src/server.cpp:488-506 | An answer to a connection closed meanwhile changes nothing but that it waits no longer |
| `Registry.ServerState.HandshakeCallback` | src/server.cpp:302-371 | A good handshake upgrades and may replace the address; a bad one closes |
| `Registry.ServerState.IdentCommand` | src/native_command.cpp:152-222 | One login attempt per connection, whatever comes of it |
| `Registry.ServerState.RunCommand` | src/server.cpp:165-196 | A command of a nameless connection closes it; others go to their handlers |
| `Registry.ServerState.TimerCallback` | src/server.cpp:252-280 | Closed connections are torn down, delayed closes and timeouts close |
| `Registry.ServerState.JCH` | script/main.lua:961-999 | Joining by name, with existence, ban, invitation, privilege and channel-count checks in the order of the handler |
| `Registry.ServerState.LCH` | script/main.lua:1090-1111 | Leaving by name |
| `Registry.ServerState.CCR` | script/main.lua:402-421 | A new private channel under an unused identifier, with its creator in it |
| `Registry.ServerState.CRC` | script/main.lua:681-699 | A new public channel unless the name is taken |
| `Registry.ServerState.CKU` | script/main.lua:510-555 | Kicking, with the invitation taken back |
| `Registry.ServerState.CBU` | script/main.lua:336-398 | Banning, with the removal of the target if present |
| `Registry.ServerState.CTU` | script/main.lua:745-817 | Timing out for a number of minutes |
| `Registry.ServerState.CUB` | script/main.lua:821-849 | Lifting a ban |
| `Registry.ServerState.KIC` | script/main.lua:1003-1029 | Destroying a channel |
| `Registry.ServerState.RST` | script/main.lua:1434-1470 | Opening and closing a private channel |
| `Registry.ServerState.FindUnusedChannels` | src/server_state.cpp:149-160 | Only empty open private channels that nobody used lately are chosen |
| `Registry.ServerState.RemoveUnusedChannels` | src/server_state.cpp:149-166 | Exactly these are removed |
| `Registry.ServerState.Handle` | script/main.lua:1743-1957 | Whatever the event, all structures stay in agreement and change in meaning exactly as the specification's step |
| `Registry.ServerState.Serve` | script/main.lua:1743-1957 | After any number of events the concrete server means what the specification's run from the same start means |
| `Registry.ServerState.constructor` | src/server_state.cpp:40-54 | A server that has just started agrees with the empty run |
| `Registry.ServerState.InExactlyOnePlace` | src/server_state.cpp:359-397 | A connection not torn down is in exactly one of the list of the nameless and the name map, and in the map exactly under its own lower-case name |
| `Registry.ServerState.MembershipIsSymmetric` | src/channel.cpp:91-106 | Both sides of every membership know of it, the count is the number of participants and at most the maximum, closed and nameless connections are in no channel, and a channel with members is the stored one |
| `Registry.ServerState.CountersAreRight` | src/server_state.cpp:367-401 | The user count is the size of the name map, and the counter of every address (zero by default) is the number of registered connections from it, within the cap |
| `Registry.ServerState.CountersHoldTheCap` | src/server_state.cpp:367-401 | The same after any run of the concrete server |
| `Registry.ServerState.BannedParticipantIsPrivileged` | script/main.lua:961-999 | The ban theorem for the concrete participants of a concrete channel after any run |
| `Registry.ServerState.ChannelCount` | src/lua_connection.cpp:207-216 | The length of the channel list is the number of channels that the connection is in |
| `Registry.ServerState.FindIsLookup` | src/server_state.cpp:392-397 | Looking a name up in the map finds the one connection registered under it |
| `Relay.StepKeeps` | src/login_evhttp.cpp:48-169 | Every step of every thread keeps conservation, the bound on the queue, single acceptance and attendance to every queue |
| `Relay.RunKeeps` | src/http_client.cpp:134-314 | So does every interleaving |
| `Relay.NoLostWakeup` | src/login_evhttp.cpp:74-169 | For every start and every interleaving: a queue that is not empty has a consumer that is awake, about to be woken or about to be signalled, unless the last wakeup was sent before the consumer's loop existed |
| `Relay.EachRequestOnce` | src/login_evhttp.cpp:118-169 | Every accepted request is at all times in exactly one stage or answered or dropped, once; only connections whose login began have one; the login queue keeps its bound |
| `Relay.RelayComesToRest` | src/http_client.cpp:174-219 | Left alone, the threads take at most a number of further steps that the state determines |
| `Relay.StuckExactlyAtRest` | src/http_client.cpp:174-219 | No thread can move if and only if all are at rest: there is no deadlock |
| `Relay.AtRestDeliveredExactlyWhen` | src/login_evhttp.cpp:111-116 | At rest a queue still holds something if and only if the last wakeup sent to its consumer came before the consumer's loop existed |
| `Relay.AlwaysDeliversExactlyWhen` | src/http_client.cpp:267-271 | All runs that come to rest have emptied all queues if and only if the HTTP loop, and with any login slots the login loop, existed before the first step |
| `Relay.AtRestAllIsDone` | src/login_evhttp.cpp:58-86 | Then every accepted request has been answered or dropped, once |
| `Relay.EarlyLoginWaits` | src/login_evhttp.cpp:111-116 | A login sent before the login loop exists waits while all threads are at rest |
| `Relay.EarlyPageWaits` | src/http_client.cpp:267-271 | The same for a page requested before the HTTP loop exists |
| `LoginPath.EveryAnswerIsAwaited` | src/native_command.cpp:152-222 | Registry and relay side by side, over every run: each answer that the server takes finds its connection gone or waiting for this one answer, so a connection gets at most one; asking whether it waits makes no difference to the server |
| `LoginPath.StepTogether` | src/native_command.cpp:152-222 | On every step a connection waits exactly while the relay owes it an answer, and both sides agree on whose login has begun |
| `Md5.F1` | src/md5.cpp:52-55 | The optimised F1 is the F of RFC 1321 |
| `Md5.F2` | src/md5.cpp:56-57 | F1 with its arguments turned is the G of RFC 1321 |
| `Md5.F3` | src/md5.cpp:58-58 | The H of RFC 1321 |
| `Md5.F4` | src/md5.cpp:59-59 | The I of RFC 1321 |
| `Md5.RoundOne` | src/md5.cpp:79-94 | The sixteen unrolled steps of round 1 are steps 1 to 16 of section 3.4 of RFC 1321 |
| `Md5.RoundTwo` | src/md5.cpp:96-111 | The same for round 2 |
| `Md5.RoundThree` | src/md5.cpp:113-128 | The same for round 3 |
| `Md5.RoundFour` | src/md5.cpp:130-145 | The same for round 4 |
| `Md5.MD5Transform` | src/md5.cpp:69-151 | The unrolled transform is the compression of RFC 1321 |
| `Md5.ByteReverse` | src/md5.cpp:42-50 | The words of a block are its bytes, low-order first |
| `Md5.BitsAdvance` | src/md5.cpp:178-185 | The two 32-bit counters with their carry are the bit count modulo 2^64, for any length added |
| `Md5.FillLevel` | src/md5.cpp:185-187 | The low counter tells how full the buffer is |
| `Md5.MD5Context.Count` | src/md5.cpp:178-187 | The counters after an update, and the fill level before it |
| `Md5.MD5Context.Update` | src/md5.cpp:175-221 | After any update the context stands for all data fed so far |
| `Md5.MD5Context.Pad` | src/md5.cpp:230-256 | Both padding cases give the padding of sections 3.1 and 3.2 of RFC 1321 |
| `Md5.MD5Context.Final` | src/md5.cpp:227-266 | The digest of everything fed, after which the context is wiped |
| `Md5.DigestOfAll` | src/md5.cpp:175-266 | However the data is cut up, the result is the digest of RFC 1321 of all of it |
| `Md5.MD5Sum` | src/md5.cpp:283-290 | The digest of RFC 1321 |
| `Md5Spec.AbsorbAppend` | src/md5.cpp:206-215 | Absorbing blocks composes over concatenation |
| `Sha1.F` | src/sha1.cpp:75-85 | The round function written with "or" is that of FIPS 180-3 |
| `Sha1.SetThenGet` | src/sha1.cpp:165-180 | Bytes and words of the shared block agree: a byte stored is read back from its word and disturbs no other |
| `Sha1.StoreByte` | src/sha1.cpp:135-140 | Storing a byte into the block changes that byte of the block alone |
| `Sha1.SwapReadsBigEndian` | src/sha1.cpp:103-108 | Swapping the ends of a stored word reads its bytes high-order first |
| `Sha1.SwapBlock` | src/sha1.cpp:173-176 | After the swap the first sixteen words are the block's in FIPS 180-3 |
| `Sha1.Extend` | src/sha1.cpp:178-181 | The schedule is that of section 6.1.2 of FIPS 180-3 |
| `Sha1.SecureHashAlgorithm.Process` | src/sha1.cpp:165-206 | Eighty rounds are the compression, and the cursor goes back to the start |
| `Sha1.SecureHashAlgorithm.Feed` | src/sha1.cpp:135-141 | One more byte of the message; the cursor stays below 64, and what an earlier block left behind is never read |
| `Sha1.SecureHashAlgorithm.Update` | src/sha1.cpp:135-143 | After any update the state stands for all data fed so far |
| `Sha1.SecureHashAlgorithm.Pad` | src/sha1.cpp:145-163 | The padding as the code builds it, in both cases, with a 32-bit count |
| `Sha1.SecureHashAlgorithm.Final` | src/sha1.cpp:127-133 | The digest with that padding for every message, the standard's below 2^29 bytes |
| `Sha1.PaddingExactlyWhen` | src/sha1.cpp:145-163 | Of the messages that FIPS 180-3 admits, the padding is the standard's if and only if there are fewer than 2^29 bytes |
| `Sha1.PaddedMessage` | src/sha1.cpp:145-163 | The blocks fed to the compression are the message and that padding |
| `Sha1.SwapOut` | src/sha1.cpp:127-133 | The state is given out high-order byte first |
| `Sha1.DigestOfAll` | src/sha1.cpp:135-143 | However the data is cut up, the result is that digest of all of it |
| `Base64Spec.RoundTrip` | src/modp_b64.cpp:81-122 | Decoding the encoding of any bytes gives them back |
| `Base64Spec.DecodeFailsExactly` | src/modp_b64.cpp:195-271 | Decoding fails if and only if the length is no multiple of four or a data character is not of the alphabet |
| `Base64.TableLetters` | src/modp_b64_data.hpp:6-91 | The three encoding tables give the letters of section 4 of RFC 4648 for every group |
| `Base64.BadDominates` | src/modp_b64.cpp:215-240 | A bad character's table entry survives being combined with any others |
| `Base64.ChunkDecoded` | src/modp_b64.cpp:215-240 | One table lookup of four characters decides their validity and yields their three bytes |
| `Base64.EncodeGroups` | src/modp_b64.cpp:81-100 | The loop over groups of three bytes |
| `Base64.ModpB64Encode` | src/modp_b64.cpp:81-122 | Exactly the encoding of RFC 4648 and a terminating zero, within the promised length |
| `Base64.DecodeChunks` | src/modp_b64.cpp:206-240 | The loop that reads a word ahead and writes four bytes at a time, three of which stay |
| `Base64.DecodeLast` | src/modp_b64.cpp:241-271 | The last one to four characters |
| `Base64.ModpB64Decode` | src/modp_b64.cpp:195-271 | Returns -1 exactly when decoding fails, else the bytes; every read and every overlapping write is in bounds |
| `Bans.Channel.IsBanned` | src/channel.cpp:157-183 | The answer of a declarative table in which the last record of a name wins, though an expired record is erased on the way |
| `Bans.Channel.GetBan` | src/channel.cpp:185-207 | The record written last, if it has not been erased |
| `Bans.Channel.CleanExpiredTimeouts` | src/channel.cpp:209-220 | Exactly the active records stay |
| `Bans.Channel.GetBanCount` | src/channel.hpp:104-107 | The number of active bans in the declarative table |
| `Bans.Channel.Write` | src/channel.cpp:112-142 | A ban or timeout replaces what was there |
| `Bans.Channel.Lift` | src/channel.cpp:144-146 | A lifted ban is gone |
| `Bans.Channel.ServeAll` | src/channel.cpp:112-220 | For every sequence of requests under a clock that does not go back, all answers are those of the declarative table: lazy expiry cannot be observed |
| `Bans.RoomReading` | src/channel.cpp:157-183 | The registry's reading of bans is this declarative one |
| `Throttle.FarApart` | src/lua_connection.cpp:979-997 | Accepted times that keep the interval one by one keep it over any number of steps |
| `Throttle.WindowBound` | src/lua_connection.cpp:979-997 | A window holds at most one more acceptance than whole intervals fit into it |
| `Throttle.HeldExactlyWhen` | src/lua_connection.cpp:979-997 | An attempt is held back if and only if some accepted attempt lies less than an interval before it |
| `Throttle.Channel.CheckUpdateTimer` | src/lua_channel.cpp:956-975 | Held back exactly within the interval; otherwise the timer starts again |
| `Throttle.Channel.Part` | src/channel.cpp:100-106 | Leaving a channel forgets the ad timer |
| `Throttle.Connection.CheckUpdateTimer` | src/lua_connection.cpp:979-997 | The same for a connection; a timer never used counts as last run at zero |
| `Throttle.Connection.Speak` | script/main.lua:1161-1170 | Messages, private messages, rolls and ads share one timer |
| `Throttle.Connection.Advertise` | script/main.lua:1115-1135 | An ad passes both timers; the shared one starts again even when the ad is then refused |
| `Throttle.Connection.Perform` | script/main.lua:1115-1342 | Every event gets the answer that the accepted times so far call for, and is recorded exactly if accepted |
| `Throttle.Connection.Converse` | script/main.lua:1115-1342 | Over any conversation and any clock: the accepted times are those of exactly the events let through, every answer is the one these call for, and no window holds too many of them, neither on the shared timer nor on a channel's ad timer between two partings |
| `JsonLua.J2lParseItem` | src/lua_chat.cpp:1045-1121 | Every JSON value but null becomes its table or value; arrays go under names with "array_" before them |
| `JsonLua.L2jParseItem` | src/lua_chat.cpp:979-1026 | Every table becomes an array or an object by its name |
| `JsonLua.JsonToLua` | src/lua_chat.cpp:1034-1043 | Anything but an object becomes an empty table |
| `JsonLua.LuaToJson` | src/lua_chat.cpp:965-977 | Anything but a table becomes an empty object |
| `JsonLua.FaithfulComesBack` | src/lua_chat.cpp:965-1121 | A faithful tree comes back as it was, in whatever order tables are traversed and however numbers are rounded |
| `JsonLua.OnlyFaithfulComesBack` | src/lua_chat.cpp:965-1121 | No other tree does |
| `JsonLua.RoundTripExactly` | src/lua_chat.cpp:965-1121 | An object tree comes back if and only if it has no null, no array directly in an array, no object under a name that begins with "array_", no array beside a non-array named like it with "array_" before, and no number that Lua has to round |
| `JsonLua.BigIntegerChanges` | src/lua_chat.cpp:1080-1086 | 2^53 + 1 does not come back |
| `JsonLua.ThereAndBack` | src/lua_chat.cpp:965-1121 | The two conversions, one after the other, on any JSON |
| `PersistenceSpec.NamesComeBack` | src/channel.cpp:569-611 | The names of modes and types are read as what they were written for |
| `PersistenceSpec.LoadedBans` | src/channel.cpp:411-467 | Whatever the file says, names of bans are lower-case and there are no more than were listed |
| `PersistenceSpec.LoadAfterSave` | src/channel.cpp:303-566 | A saved channel is loaded as it was, without its expired timeouts, if and only if its unexpired bans are at most 300 and have lower-case names |
| `PersistenceSpec.FileComesBack` | src/server_state.cpp:81-142 | A file read into an empty server restores exactly the public and the open private channels, if and only if that holds of each of them |
| `Persistence.Channel.SaveBans` | src/channel.cpp:328-352 | Exactly the unexpired bans, each once |
| `Persistence.Channel.SaveMods` | src/channel.cpp:353-370 | Exactly the moderators, each once |
| `Persistence.Channel.SaveChannel` | src/channel.cpp:303-374 | The JSON of a channel |
| `Persistence.Channel.ReadBans` | src/channel.cpp:411-476 | The first 300 entries, skipping malformed ones, the last of a name counting |
| `Persistence.Channel.ReadMods` | src/channel.cpp:479-531 | All entries, skipping malformed ones |
| `Persistence.Channel.LoadChannel` | src/channel.cpp:376-566 | Every item that the JSON has in the right type replaces the channel's own |
| `Persistence.SaveChannels` | src/server_state.cpp:122-142 | Each public and each open private channel once, and no other |
| `Persistence.LoadChannels` | src/server_state.cpp:81-119 | Channels are found or created by name and loaded |
| `Persistence.Restart` | src/server_state.cpp:81-142 | Saving and loading, one after the other, on the channel objects |
| `RegistryLaws.LowerTurnsCapitals` | script/main.lua:87-98 | Lower-casing turns exactly the capital letters into the small ones of the same places |
| `RegistryLaws.LoginSettles` | script/main.lua:1743-1942 | What an answer makes of the waiting connection: its name, its roles, whether it closes, field by field and for refused, barred and incomplete answers too |
| `RegistryLaws.LoginDisplaces` | script/main.lua:1765-1787 | What an answer does to any other connection: it loses the name that the answer gives away and is to close, exactly if it bears that name and the address is under the cap; nothing otherwise |
| `RegistryLaws.RolesAreGiven` | script/main.lua:1789-1812 | A role that a connection has after an event and not before is Admin only if its answer says admin, Global only if it says operator, Cop only if channel operator, SuperCop only if super operator, or the event grants it |
| `RegistryLaws.RolesAreGivenOnRun` | script/main.lua:1789-1812 | Over every run, whoever has a role was given it by such an answer to its own login or by such a grant |
| `ServerLaws.RoleWasGiven` | script/main.lua:1789-1812 | The same of the roles that the running server's connection objects hold |
| `RegistryLaws.JoinLaw` | script/main.lua:961-999 | A join succeeds exactly for an open named non-member on fewer than 75 channels (or unlimited), who is not banned and, if the channel is private, invited, or who is privileged there; then it alone becomes a member, and nothing else changes but the highest count |
| `RegistryLaws.MembershipBegins` | script/main.lua:961-999 | Whatever the event, a membership begins only for who may join, for the creator of the channel, or by the staff auto-join |
| `RegistryLaws.MemberSince` | script/main.lua:961-999 | Over every run, whoever is on a channel got in at such an event and has been there ever since |
| `ServerLaws.ParticipantWasAdmitted` | script/main.lua:961-999 | The same of the participants in the running server's channel objects |
| `RegistryLaws.StaffJoinLaw` | script/main.lua:1930-1939 | A complete login of staff, operator or channel operator does lead to the staff room, with an invitation, as long as the room stands |
| `RegistryLaws.MembershipEnds` | script/main.lua:1090-1111 | Whatever the event, a membership ends only by leaving, by an allowed kick, ban, timeout or destruction, by closing, or by losing the name to a login |
| `RegistryLaws.LeaveLaw` | script/main.lua:1090-1111 | Leaving takes away that membership, and the channel with its last member exactly if it is a destroyable private one or an open one that never had five |
| `RegistryLaws.CreationLaw` | script/main.lua:402-421 | A new private channel has an identifier that was tried and free, and its creator as owner, only guest and only member; without a free identifier nothing happens |
| `RegistryLaws.PublicCreationLaw` | script/main.lua:681-699 | Only an admin makes a public channel, and only under a free name |
| `RegistryLaws.KickLaw` | script/main.lua:510-555 | Who bears the name leaves the channel exactly if the actor rules there and is on it, as the target is, and the target is not shielded; the invitation goes with it |
| `RegistryLaws.KickNobody` | script/main.lua:510-555 | Kicking a name that nobody bears does nothing |
| `RegistryLaws.BanLaw` | script/main.lua:336-398 | A ban, or a timeout of at least a minute from the actor's own channel, is written exactly if the actor rules there, fewer than 300 are in force or the actor is on the staff, and the target is not shielded; whoever bears the name leaves, and a record in force is kept |
| `RegistryLaws.UnbanLaw` | script/main.lua:821-849 | A record in force is lifted exactly if the actor rules on the channel |
| `RegistryLaws.RecordsChange` | script/main.lua:336-398 | Whatever the event, the records of a channel that stands change only by a ban, timeout or unban of somebody who rules there |
| `RegistryLaws.DestructionLaw` | script/main.lua:1003-1029 | A channel is destroyed exactly by its owner or an admin, with all memberships in it |
| `RegistryLaws.StatusLaw` | script/main.lua:1434-1470 | A channel that is not public is opened and closed exactly by its owner, an admin or a global moderator; public ones stay so |
| `RegistryLaws.NamelessLaw` | src/server.cpp:134-200 | A command from a connection without a name only closes it; after a close or before the upgrade nothing happens |
| `RegistryLaws.OnlyClosings` | src/server.cpp:252-280 | A connection becomes closed exactly by hanging up, a failed handshake, or a timer that finds it due or expired |
| `RegistryLaws.ClosingLaw` | script/main.lua:1944-1957 | Closing takes the connection off every channel, empties out temporary channels, and takes its invitation to the staff room |
| `RegistryLaws.ForgettingLaw` | src/server.cpp:252-280 | A connection is forgotten exactly by the timer that finds it closed |
| `RegistryLaws.ClosedLaw` | src/server.cpp:488-506 | What still arrives for a closed connection, answers to its login included, changes nothing but whether a login waits and whether it is to close once more |
| `RegistryLaws.ArrivalLaw` | src/server.cpp:373-418 | A connection that arrives is new, has no name, no roles and no login under way, and is on no channel |
| `RegistryLaws.CleaningLaw` | src/server_state.cpp:149-166 | Cleaning takes away exactly the empty open private channels that nobody used lately |
| `RegistryLaws.TimeLaw` | src/server.cpp:252-280 | Time never runs backwards, and only the clock moves it |
| `RelayLaws.AcceptedExactlyWhen` | src/login_evhttp.cpp:48-169 | A login is accepted exactly at its connection's first well-formed attempt with the queue locked and, with a limit, a free slot; a page exactly with its queue locked |
| `RelayLaws.DroppedExactlyWhen` | src/http_client.cpp:197-203 | A step settles a request unanswered exactly if the queue to the HTTP thread could not be locked or the transfer did not start, and then it is the request the thread held |
| `RelayLaws.DroppedByFailures` | src/http_client.cpp:197-203 | Over every run, exactly as many requests are dropped as such failures happen |
| `RelayLaws.AllAnsweredWithoutFailures` | src/http_client.cpp:134-219 | Without failures, and with the loops up from the start, nothing is dropped, and every accepted request has been answered exactly once when the relay is at rest |
| `RelayLaws.PassesEveryStage` | src/http_client.cpp:134-219 | Every step moves at most one request, from one stage to the next in order; only a failure takes one out of turn |
| `RelayLaws.QueuesKeepOrder` | src/login_evhttp.cpp:48-169 | Every queue is first in, first out |
| `WireLaws.FrameLaw` | src/websocket.cpp:156-241 | The bytes of a masked frame, spelled out for each length form, are read by their opcode number: 8 closes, over 524288 bytes or an unknown number is a violation, 1 is text, 9 ping, 10 pong |
| `WireLaws.UnmaskedLaw` | src/websocket.cpp:156-165 | A frame without the mask bit is a violation from its second byte on |
| `WireLaws.WaitsForAll` | src/websocket.cpp:156-241 | As long as any byte of an acceptable frame is missing the server waits |
| `WireLaws.HelloIsRead` | src/websocket.cpp:156-241 | The masked example of section 5.7 of RFC 6455 is read |
| `WireLaws.SentBytes` | src/websocket.cpp:243-262 | The bytes sent for a frame, for each length form |
| `WireLaws.StrictClientRefuses` | src/websocket.cpp:243-262 | The strict client refuses fragments, reserved bits, masks and lengths not in their shortest form |
| `WireLaws.MessageExactlyWhen` | src/server.cpp:156-158 | A text frame of at most 524288 bytes is a message, followed by the reading of the rest, if and only if it has three bytes or more; a shorter one ends the connection |
| `WireLaws.ControlIsRead` | src/server.cpp:134-200 | Pings, pongs, closes and unknown opcodes in the stream, by number |
| `WireLaws.NineFrames` | src/server.cpp:134-149 | One read event handles at most nine frames, and all exactly if there are no more and no control frame comes before the last |
| `WireLaws.OfferedAreQueued` | src/connection.cpp:75-82 | Of texts offered in turn exactly the first are queued, as long as at most 150 buffers wait |
| `WireLaws.CommandLaw` | src/server.cpp:165-196 | By the three letters of the command: PIN answers nothing and closes nothing; IDN closes on any code but OK; FKS, ZZZ and VAR run without a name; any other without a name gets the error text and closes; the two worst codes close |
| `WireLaws.OverflowLaw` | src/server.cpp:111-118 | A read event ends the connection for overflow exactly if more than 1048576 bytes were waiting before it |
| `Sha1.S` | src/sha1.cpp:87-89 | The rotation of FIPS 180-3 |
| `Sha1.K` | src/sha1.cpp:91-101 | The constant of each round of FIPS 180-3 |
| `Sha1Laws.RotationIsArithmetic` | src/sha1.cpp:87-89 | Rotating by n is x * 2^n mod 2^32 + x / 2^(32 - n), for the three rotations used |
| `Sha1Laws.ConstantsAreRoots` | src/sha1.cpp:91-101 | The constants k are the roots of 2, 3, 5 and 10: k^2 <= m * 2^60 < (k + 1)^2 |
| `Sha1Answers.DigestOfAbc` | src/sha1.cpp:127-206 | The digest of "abc" is the one of FIPS 180, round by round |
| `HandshakeAnswers.SampleAccepted` | src/websocket.cpp:134-154 | The sample key of section 1.3 of RFC 6455 gets that section's answer |
| `HandshakeAnswers.SampleRequest` | src/websocket.cpp:63-114 | The sample's header fields make an acceptable request with that key |
| `HandshakeAnswers.CapitalsLowered` | src/websocket.cpp:63-114 | Of header names exactly the twenty-six capitals are lowered, each to its own small letter |
| `HandshakeAnswers.ResponseLines` | src/websocket.cpp:134-154 | The answer, line by line |
| `Md5Answers.DigestOfAbc` | src/md5.cpp:42-266 | The digest of "abc" is the one of RFC 1321, step by step |
| `Md5Answers.LengthMeans` | src/md5.cpp:42-151 | The last eight bytes of the padding are the length in bits modulo 2^64, low-order byte first |
| `Base64Answers.Examples` | src/modp_b64.cpp:81-122 | The examples of section 10 of RFC 4648 |
| `Base64Answers.WholeAlphabet` | src/modp_b64_data.hpp:6-91 | The sixty-four letters, one by one |
| `Base64Answers.LettersAreAlphabet` | src/modp_b64_data.hpp:293-478 | The characters that decode are exactly the letters, each as its own group |
| `Base64Answers.DecodeLaw` | src/modp_b64.cpp:195-271 | Decoding fails exactly if the length is no multiple of four or a character before up to two closing "=" is no letter |
| `Bans.RecordLasts` | src/channel.cpp:112-183 | A ban is in force, and a timeout is while its end has not passed, at any later question, whatever was done about other names in between |
| `Bans.CountsAndStrangers` | src/channel.cpp:157-183 | A name never written about is not banned, and the count is of the records in force |
| `ThrottleLaws.ConversationLaw` | script/main.lua:1115-1342 | The answers to a conversation, from the events and answers alone: an event is held back exactly if another passed less than an interval before; an ad that is not held back is refused exactly if its channel admits none or one was accepted there less than an interval before and since it was last left |
| `ThrottleLaws.ConverseAnew` | script/main.lua:1115-1342 | The answers that a new connection gets are those |
| `JsonLua.TableToArray` | src/lua_chat.cpp:1000-1013 | An array has the conversion of every entry exactly once, those under 1, 2, and so on first and in order |
| `JsonAnswers.ArrayTravels` | src/lua_chat.cpp:1087-1101 | An array arrives under its name with "array_" before it, items under 1, 2, and so on, with a hole for a null |
| `JsonAnswers.TableReturns` | src/lua_chat.cpp:1000-1017 | A table under a name that begins with "array_" becomes an array under the rest of the name, any other an object |
| `PersistenceLaws.KeptExactlyWhen` | src/channel.cpp:328-352 | A timeout is left out of the file once its end has passed; a ban never is |
| `PersistenceLaws.StorableExactlyWhen` | src/channel.cpp:411-467 | A channel comes back exactly if at most 300 of its records are in force and those are under lower-case names |

## Left out

- Sockets, the event loop, curl and files: what arrives, what the kernel takes, which timer fires, which request completes and what a file holds are parameters or choices of the run.
- The Lua machine: handlers run to completion; script errors and event timeouts are not modelled.
- Redis, the logger thread, the search commands, user lists and profiles, debug commands, server-wide bans and operator lists other than their effect on a login, staff calls other than the set of targets.
- The parsing and printing of JSON text: JSON is a tree from the start. Strings are sequences of characters; what jansson does with invalid UTF-8 or an embedded zero is not modelled.
- Memory management: reference counts and repeated closing of a descriptor.
- Numbers: times are reals or integers without rounding; machine integers are unbounded except where their width matters (frame lengths, the counters of MD5 and SHA-1, the words of Base64).
- The error codes and broadcasts that chat handlers send back: the registry models which state a command leaves, not the texts; `Connections` takes the texts of a command as a parameter.
- The commands that hand out ownership, moderators, invitations and roles: the event may set any values (`Registry.ServerState.Administer`, `Registry.ServerState.SetRoles`), which covers all of them; who may issue them is not modelled.
- `event.ACB`, ignore lists and the role updates of channel moderators.
- Leaving a channel in the registry and erasing its ad timer are one operation of the server; here the membership is in `Registry`, the timer in `Throttle`, the bans' expiry in `Bans` and the saved fields in `Persistence`, each with its own class of channel.
- Big-endian Base64, the string wrappers around it, and the hexadecimal form of an MD5 digest; the Base64 tables are given by the rule that generates them, not entry by entry.
- Registry.ServerState.GeneratePrivateChannelID: the identifiers tried are a parameter and may run out, since whether a fresh hash turns up cannot be known; only that a returned one is unused is stated.
- Registry.ServerState.ProcessWakeup: looks at a flag for an outstanding answer that the server does not keep; `LoginPath.EveryAnswerIsAwaited` proves that it makes no difference.
- Registry.ServerState.HandshakeCallback: whether the request was good and which address a proxy gave are parameters.
- Connections.Connection.ReadReady: after the read buffer overflowed the descriptor is closed, and receiving from it is taken to fail.
- Connections.Connection.Dispatch: the replies, the code and the closing that a command leads to are a parameter.
- Connections.Connection.WriteReady: the kernel is taken not to accept more bytes than it was offered.
- Handshake.ComputeAccept: keys that do not fit into the 4096-byte buffer are excluded.
- Handshake.Accept: the same.
- Relay.NoLostWakeup: the threads run on; stopping and joining them is not modelled. The relay is modelled on values, one step per atomic action under a lock.
- Persistence.LoadChannels: entries of the file have names that are strings, without which the server's behaviour is undefined.
- PersistenceSpec.LoadAfterSave: the flag that forbids destroying a channel, invitations and participants are not in the file, and so not in the statement.
- JsonLua.J2lParseItem: which double stands for a number is a parameter, so no property of rounding is stated beyond whether it changes the number.
- JsonLua.L2jParseItem: the entries of a table that are not numbered from 1 on come each once, but in any order.
