# A verified model of the Modbus TCP chat

A chat server and its clients exchange application messages in Modbus TCP frames. The clients seal
their texts end to end: they exchange public keys through the server, and the first client of a room
creates a room key that the others learn from one another. This project models that system in Dafny
and proves what its parts promise one another: the server over every run, the key exchange under every
interleaving of the clients' threads with the server, the wire format byte by byte, the key store on
disk, and the work queues.

`dafny verify dfyconfig.toml` checks everything.

## How it is laid out

- **Bytes, Messages, Codec, Protocol, Modbus, Transport.** Big-endian integers and strings, the
  fourteen application messages, their encoding and decoding as functions (`Codec`) and as the loops of
  the program (`Protocol`), frames and sockets (`Modbus`), messages over sockets (`Transport`).
- **Registry, Server, ServerSafety, ServerSends, ServerRuns, ServerWire.** The server as a value and a
  step for each piece of work of its poll loop; what every step keeps; which messages a step hands to
  whom; what holds over whole runs; which of the messages handed out fit a frame.
- **ClientRegistry, ServerViewModel, PollLoop.** The same server as objects that are updated in place,
  each method proved equal to the corresponding step. `PollLoop` records its history as a run of
  `ServerRuns`, so the theorems about runs hold of the objects.
- **Cipher, Client, Replica, OwnEntry, NameIndex, ClientBans, SmallRuns.** The client's keys and its copy
  of the membership; how exact that copy is after any number of consumed messages, the client's own
  entry included; the nickname index; bans at the client; small runs at which these properties end.
- **Gossip, GossipTokens, GossipPairs, GossipAuth, GossipLearning, GossipConvergence, GossipPolite,
  GossipCounts, GossipMeasure.** The key exchange as a state machine over the critical
  sections and sends of every client's two threads and the server's handling of each message.
- **World, WorldReplica, WorldWire, WorldLosses.** The server of `Server` with the clients of `Gossip` on
  its connections: every run of the whole system is a run of the exchange, every client's copy of the
  membership is exact, which of the messages under way fit their frames, and three runs of the whole
  system at which convergence ends.
- **Churn, IdReuse.** The server with clients that come, leave and are banned: the exchange still comes to
  rest; and what becomes of a newcomer that is given the id of a client that has left.
- **ClientViewModel, PeerKeyStore, Session.** The client's objects, and a client's whole session from the
  bytes on its socket to its copies.
- **EndToEnd, WireFormat, WorkQueue.** A text from one user to another; the bytes of every message, frame
  and key store, written out; the command queue and the logger.

The cipher is a record of functions of which only laws are used: both ends compute the same shared key,
what is sealed opens with the sealing key, sealing adds forty bytes, and, for broadcasts only, nothing
opens with another key. `Cipher.LawsAreConsistent` shows that the laws can be met.

## Where the program does not do what it is meant to

- *Key exchange.* It does not always converge. A user who types `/key n` before client n is connected
  gets an error back, but n stays marked as offered, so n never gets the key
  (`WorldLosses.EarlyRequestIsNeverRepaired`). And since the input thread marks a peer under the mutex
  but sends after releasing it, the receive thread can send the room key first; the peer drops it and
  it is not sent again (`WorldLosses.OvertakingLosesTheRoomKey`). `GossipConvergence.ConvergedIff` says
  exactly when the exchange converges, and `GossipPolite.PoliteRunsConverge` gives a rule on the users'
  commands that is enough.
- *Saved room keys.* A client keeps the room key it had saved even if it is told to create the room, and
  takes any room key a peer sends it. Nobody ever holds a room key other than the creator's if and only if
  whoever had saved one had saved the creator's (`GossipConvergence.OneRoomKeyIff`); two clients with
  different saved keys can swap them, and then each holds the other's for good
  (`WorldLosses.SavedRoomKeysAreSwapped`).
- *Identifiers are used again.* The server gives the smallest free id to the next newcomer
  (`IdReuse.NextGetsIdIff`), but a client neither unmarks the id nor forgets its key when the holder
  leaves. It offers its key to a newcomer if and only if it has never sent an offer to that id
  (`IdReuse.NewcomerOfferedIff`, `IdReuse.NoSecondOffer`), so a newcomer with a used id gets neither keys
  nor a room key that it could open (`IdReuse.AskingDoesNotHelp`, `IdReuse.ReusedIdIsNotKeyed`), and texts
  to it go on being sealed for its predecessor (`IdReuse.KeyOutlivesHolder`).
- *Membership.* A client is not told of its own registration. Once it has taken a UsersList its copy
  equals the registry exactly as long as its own nickname is the one of the last such list
  (`OwnEntry.CopyIsExactIff`). The program's own client registers before it can ask for a list, so its
  copy is never wrong and is complete from the first list on (`WorldReplica.WorldCopiesAreExact`); only a
  foreign client that registers after having been sent a list sees itself under an old nickname
  (`SmallRuns.ForeignClientMayBeStale`). After a rename the old nickname stays in the other clients'
  nickname index (`NameIndex.RenameBreaksIndexIff`, `SmallRuns.RenameBreaksAnIndex`).
- *Bans from before a client connected.* A client erases the key of an id whose ban it is told of; of
  earlier bans it is not told, so a key of such an id that it had saved stays
  (`ClientBans.EarlierBanKeepsSavedKey`).
- *Messages that do not fit.* The server hands out messages that can be encoded but whose frame is cut:
  the announcement of a nickname of more than 65526 bytes (a Register carries 65530), a BannedIds of more
  than 16382 ids, an Error of more than 65530 bytes, a relayed text of more than 65526 bytes and a list of
  users of more than 65530 bytes (`ServerWire.HandedCrossesIff`, `ServerWire.NicknameCrossesIff`,
  `SmallRuns.LongNicknameDoesNotCross`). The receiver then reads something else and loses its place in
  the stream. What a connection has been handed arrives as it is if and only if all of it fits
  (`Session.HandedArriveIff`); what is said about a client's copies from the bytes on
  (`Session.SessionMirrors`, `Session.SessionIndexIsExact`, `Session.SessionForgets`) is said under that
  condition. The messages of the key exchange itself always fit (`WorldWire.ExchangeAlwaysFits`).
- *Frames.* The length field has sixteen bits. Encoding and decoding are inverse exactly up to 65534
  bytes of PDU (`Modbus.FrameRoundTripIff`); a length field of zero makes `decode` use an iterator range
  that ends before it begins, which `read_frame` rules out by checking first.
- *Running out of identifiers.* When every id is in use or banned the counter wraps, and the server hands
  out id 0 and then ids in use (`ServerSafety.ExhaustedAllocationWraps`, `ServerSafety.WrappedCounterRepeats`,
  `ServerSafety.AcceptValidIff`); `ServerRuns.LightLoadNeverWraps` says when that cannot be.
- *Logger.* `flush` is documented to return when the entries are on disk; one entry may still be in the
  writer's hand (`WorkQueue.FlushIff`, `WorkQueue.FlushMayReturnEarly`).
- *Bans of more than 65535 new ids at once* throw out of the poll loop after the ids have been banned and
  before anybody is told or shut down (`PollLoop.PollLoop.ProcessAdminQueue`).

## Model

| member | source | states |
|---|---|---|
| `Bytes.WriteReadU32` | common/Protocol.hpp:101-111 | four bytes are determined by the number they spell, so reading and writing are mutually inverse |
| `Bytes.WriteReadU16` | common/Protocol.hpp:119-126 | the same for two bytes |
| `Bytes.DecodeStringIff` | common/Protocol.cpp:70-89 | a string decodes from exactly the inputs that begin with its encoding |
| `Bytes.DecimalSpells` | server/model/ClientRegistry.cpp:113-116 | a number prints as the digits 0 to 9 that spell it, without a leading zero |
| `Codec.UserIff` | common/Protocol.cpp:9-27 | a user entry decodes from exactly the inputs that begin with its encoding |
| `Codec.UsersIff` | common/Protocol.cpp:166-178 | the same for a list of users of any length |
| `Codec.IdsIff` | common/Protocol.cpp:183-195 | the same for a list of ids of any length |
| `Codec.RecipientIff` | common/Protocol.cpp:38-52 | the recipient bytes accepted for a tag are exactly those the tag allows, and they are kept as received |
| `Codec.ChatIff` | common/Protocol.cpp:29-56 | a chat payload decodes from exactly the inputs that begin with its encoding, and only well-formed ones do |
| `Codec.DeliverIff` | common/Protocol.cpp:58-66 | the same for relayed texts and keys |
| `Codec.UsersListIff` | common/Protocol.cpp:165-178 | the same for the UsersList message |
| `Codec.BannedIdsIff` | common/Protocol.cpp:179-196 | the same for the BannedIds message |
| `Codec.PayloadIff` | common/Protocol.cpp:114-199 | the same for the payloads of all types but AssignId |
| `Codec.DecodeIff` | common/Protocol.cpp:101-202 | decode_app_message returns m from exactly the PDUs that begin with the encoding of m; AssignId reads any non-zero flag byte, or a missing one |
| `Codec.RoundTripIff` | common/Protocol.cpp:91-271 | a message of any of the fourteen types survives encoding and decoding if and only if it is well formed |
| `Codec.ReencodeIsNormalForm` | common/Protocol.cpp:101-271 | re-encoding a decoded message gives the front of what was received, or for AssignId a payload that decodes the same |
| `Codec.UsersFit` | common/Protocol.cpp:248-259 | a list of users encodes exactly if every nickname fits its length field |
| `Protocol.EncodeBannedIds` | common/Protocol.cpp:261-271 | the appending loop computes the encoding, or throws when the list is too long |
| `Protocol.EncodeUsersList` | common/Protocol.cpp:248-259 | the appending loop computes the encoding; the first exception wins |
| `Protocol.DecodeUserInfo` | common/Protocol.cpp:9-19 | decodes at the offset, advances it past exactly one entry and never reads beyond the end |
| `Protocol.DecodeUsersListPayload` | common/Protocol.cpp:165-178 | the loop with the moving offset computes what the recursive definition does, including which exception |
| `Protocol.DecodeBannedIdsPayload` | common/Protocol.cpp:179-196 | the same for ids |
| `Protocol.DecodeAppMessage` | common/Protocol.cpp:101-202 | returns m if and only if the PDU carries m |
| `Modbus.FrameRoundTripIff` | common/ModbusTcp.cpp:65-94 | decode inverts encode if and only if the PDU has at most 65534 bytes |
| `Modbus.PrefixIsIncomplete` | common/ModbusTcp.cpp:77-86 | no strict prefix of a frame decodes |
| `Modbus.FramesOfEncoded` | common/ModbusTcp.cpp:65-123 | a stream of frames followed by anything is read back as those frames |
| `Modbus.AnyChunking` | common/ModbusTcp.cpp:27-49 | however bytes are cut into non-empty chunks, the same bytes are readable |
| `Modbus.Socket.ReadSome` | common/ModbusTcp.cpp:30-45 | one poll and read yields between one and the requested number of the bytes that come next, or fails |
| `Modbus.Socket.ReadExact` | common/ModbusTcp.cpp:27-49 | succeeds exactly if enough bytes can be read before a fault, and then takes exactly those |
| `Modbus.Socket.ReadFrame` | common/ModbusTcp.cpp:96-123 | returns the frame at the front of the stream and consumes exactly it; the final size check never fails |
| `Modbus.Socket.ReadFrames` | common/ModbusTcp.cpp:96-123 | repeated reading returns all frames of the stream in order |
| `Modbus.Socket.SendSome` | common/ModbusTcp.cpp:54-58 | one send accepts a beginning of the bytes |
| `Modbus.Socket.WriteExact` | common/ModbusTcp.cpp:51-61 | everything is written exactly if the sends accept it all; otherwise a beginning that stops short |
| `Modbus.Socket.WriteFrame` | common/ModbusTcp.cpp:125-128 | the same for a frame's bytes |
| `Modbus.Transmit` | common/ModbusTcp.cpp:27-123 | for every sequence of frames and every chunking of their bytes, reading returns exactly that sequence |
| `WireFormat.BigEndian16` | common/Protocol.hpp:119-126 | two-byte numbers are written and read with the most significant byte first |
| `WireFormat.BigEndian32` | common/Protocol.hpp:101-111 | the same for four bytes |
| `WireFormat.PduIsTable` | common/Protocol.hpp:12-27 | for each of the fourteen types the PDU is, byte by byte, function code 0x41, the type's number and its fields in their order, and that PDU decodes to the message |
| `WireFormat.RecipientBytes` | common/Protocol.hpp:35-38 | recipient bytes are well formed if and only if they are 1 and four bytes, 2 and a nickname with its length, or 3 and none |
| `WireFormat.ByIdIsTagged` | client/viewmodel/OutgoingMessageBuilder.cpp:19-22 | a message to one client is marked 1 and carries the id's four bytes |
| `WireFormat.FrameBytes` | common/ModbusTcp.cpp:65-94 | a frame is, byte by byte, its transaction id, 0 0, the length of what follows, the unit id and the PDU, and those bytes decode to it |
| `WireFormat.WireBytes` | common/Protocol.cpp:91-99 | a message that fits goes out with transaction and unit id 0 and is read back from exactly those bytes |
| `WireFormat.DecodeRefuses` | common/Protocol.cpp:101-202 | which short or unknown PDUs are refused, and in which words |
| `WireFormat.DecodeRefusesCounts` | common/Protocol.cpp:29-89 | the same for lengths, counts and recipients that do not match what is there |
| `Transport.Receive` | common/transport/ModbusMessageTransport.cpp:10-17 | receives what the next frame decodes to, which is always something the server's steps are prepared for |
| `Transport.Send` | common/transport/ModbusMessageTransport.cpp:5-8 | a message that cannot be encoded writes nothing; otherwise its frame is written, exactly if the socket accepts it |
| `Transport.DecodeTextFits` | common/Protocol.cpp:101-202 | every exception text of the decoder fits an Error reply |
| `Transport.ReceiveAll` | common/transport/ModbusMessageTransport.cpp:5-17 | a connection is a queue: the messages sent are received in order, none lost, none twice, whatever the chunks |
| `Transport.ArrivalIsAnswered` | server/viewmodel/ServerViewModel.cpp:245-265 | a PDU that does not decode is answered with the decoder's words; any other is handled as the message in it |
| `Registry.AddKeepsValid` | server/model/ClientRegistry.cpp:7-14 | adding a new descriptor with a new id keeps the three indexes in agreement |
| `Registry.RemoveKeepsValid` | server/model/ClientRegistry.cpp:16-29 | removing keeps them in agreement and removes exactly one id |
| `Registry.SetNicknameIds` | server/model/ClientRegistry.cpp:62-73 | set_nickname keeps descriptors and ids inverse, whatever the nickname, and changes one nickname |
| `Registry.SetNicknameValidIff` | server/viewmodel/handlers/RegisterMessageHandler.cpp:16-34 | the nickname index stays exact if and only if the register handler's guards hold |
| `Registry.ResolvedIsConnected` | server/model/ClientRegistry.cpp:87-106 | every recipient that resolves is connected, so "Recipient offline" is unreachable |
| `ClientRegistry.ClientRegistry.Add` | server/model/ClientRegistry.cpp:7-14 | the object's maps become those of the specification |
| `ClientRegistry.ClientRegistry.Remove` | server/model/ClientRegistry.cpp:16-29 | likewise, and the removed record is returned |
| `ClientRegistry.ClientRegistry.SetNickname` | server/model/ClientRegistry.cpp:62-73 | likewise |
| `ClientRegistry.ClientRegistry.AllFds` | server/model/ClientRegistry.cpp:125-133 | every descriptor exactly once, in some order |
| `ClientRegistry.ClientRegistry.CollectUsers` | server/model/ClientRegistry.cpp:75-85 | gathering in any order and sorting gives the unique ascending list of all users |
| `ClientRegistry.SortById` | server/model/ClientRegistry.cpp:82-83 | the result is ascending and has the same members |
| `ClientRegistry.AscendingIsUnique` | server/model/ClientRegistry.cpp:75-85 | a list in ascending order of ids is determined by its members |
| `Server.SortedUsersContents` | server/model/ClientRegistry.cpp:75-85 | the list names every client exactly once, with its nickname, in ascending order |
| `Server.NewlyBannedInOrder` | server/viewmodel/ServerViewModel.cpp:65-75 | the ids a ban adds come in the order of their first mention, without repetition |
| `ServerSafety.SkipBannedIsNext` | server/viewmodel/ServerViewModel.cpp:203-206 | skipping banned ids finds the first id from the counter on that is not banned |
| `ServerSafety.AllocatesSmallest` | server/viewmodel/ServerViewModel.cpp:194-207 | in every valid state the id handed out is the smallest from 1 on that is neither active nor banned |
| `ServerSafety.AcceptValidIff` | server/viewmodel/ServerViewModel.cpp:194-231 | accepting keeps the server valid if and only if some id is left; otherwise the counter wraps |
| `ServerSafety.ExhaustedAllocationWraps` | server/viewmodel/ServerViewModel.cpp:203-206 | with no id left the allocator returns 0, or the last 32-bit id with the counter wrapping to 0, and the pool is no longer a partition |
| `ServerSafety.WrappedCounterRepeats` | server/viewmodel/ServerViewModel.cpp:203-206 | from the wrapped counter on the ids handed out are 0 and then the smallest one in use |
| `ServerSafety.FewIdsLeaveASpare` | server/viewmodel/ServerViewModel.cpp:194-207 | fewer than 2^32 - 2 active and banned ids leave one to hand out |
| `ServerSafety.RemovedKeepsValid` | server/viewmodel/ServerViewModel.cpp:209-243 | disconnecting keeps indexes, id pool and outboxes in agreement |
| `ServerSafety.RegisteredKeepsValid` | server/viewmodel/handlers/RegisterMessageHandler.cpp:9-35 | registering does |
| `ServerSafety.BanKeepsValid` | server/viewmodel/ServerViewModel.cpp:65-89 | banning does |
| `ServerSafety.BanShuts` | server/viewmodel/ServerViewModel.cpp:83-89 | the connections that are shut down are exactly those of banned clients, before and after a ban |
| `ServerSafety.StepKeepsValid` | server/viewmodel/ServerViewModel.cpp:54-265 | every step does: the ids below the counter split into active, free and banned, the free ones are neither of the others, and exactly the banned clients' connections are shut down |
| `ServerSends.AcceptSends` | server/viewmodel/ServerViewModel.cpp:216-231 | the new client gets its AssignId first, everyone else who is not banned exactly one UserJoined, a banned client nothing |
| `ServerSends.RemoveSends` | server/viewmodel/ServerViewModel.cpp:233-243 | everyone who stays and is not banned gets exactly one UserLeft with the nickname, a banned client nothing |
| `ServerSends.BanSends` | server/viewmodel/ServerViewModel.cpp:54-63 | exactly the clients that are not banned get exactly one BannedIds with the new ids |
| `ServerSends.RegisterSends` | server/viewmodel/handlers/RegisterMessageHandler.cpp:9-35 | everyone else who is not banned is told of an accepted nickname; a refused one costs the sender one Error |
| `ServerSends.MayTakeIff` | server/viewmodel/handlers/RegisterMessageHandler.cpp:16-30 | a nickname may be taken if and only if it is not empty, not "all", and no other client has it |
| `ServerSends.RegisterRefusals` | server/viewmodel/handlers/RegisterMessageHandler.cpp:16-30 | which refused nickname is answered with which words |
| `ServerSends.ResolvesAddressed` | server/model/ClientRegistry.cpp:87-123 | a recipient resolves to a client if and only if that client is the one addressed |
| `ServerSends.BroadcastSends` | server/viewmodel/handlers/ChatMessageHandler.cpp:27-39 | a broadcast reaches every other client that is not banned exactly once, and nobody else, with the sender's registry id |
| `ServerSends.UnicastSends` | server/viewmodel/handlers/OpaqueUnicastHandler.cpp:43-62 | a message to one client reaches it exactly once and nobody else; otherwise the sender gets exactly one Error, even if its text did not fit |
| `ServerSends.RefusalByIdSends` | server/viewmodel/handlers/OpaqueUnicastHandler.cpp:43-53 | a message by id to nobody or to a banned client is answered with an Error that quotes the whole id, and with nothing else |
| `ServerSends.RefusalByNicknameSends` | server/viewmodel/handlers/OpaqueUnicastHandler.cpp:43-53 | one by nickname is answered with an Error that quotes the whole nickname if and only if that has at most 65516 bytes, 65517 for a banned client; otherwise with "String too long" |
| `ServerSends.ListUsersSends` | server/viewmodel/handlers/ListUsersMessageHandler.cpp:7-11 | the sender alone gets the list, or one Error when it has more users than the count field can say; whether the list fits a frame is `ServerWire.HandedCrossesIff` |
| `ServerSends.OtherSends` | server/viewmodel/MessageDispatcher.cpp:7-17 | malformed and unsupported messages cost the sender one Error |
| `ServerSends.MalformedRefusal` | server/viewmodel/ServerViewModel.cpp:261-264 | what does not decode is answered with the words of the exception |
| `ServerSends.UnsupportedRefusal` | server/viewmodel/MessageDispatcher.cpp:7-17 | each message type that only servers send is answered with "Unsupported message type" |
| `ServerSends.TooManyUsersRefusal` | server/viewmodel/handlers/ListUsersMessageHandler.cpp:7-11 | with more than 65535 clients the list is refused with "Too many users" |
| `ServerSends.StepHasEffect` | server/viewmodel/ServerViewModel.cpp:54-265 | every step writes each connection at most one message, with a stated origin, and tells everyone whose connection has not been shut down of every change of membership |
| `ServerRuns.ReachesValid` | server/viewmodel/ServerViewModel.cpp:117-178 | every state of every run is valid |
| `ServerRuns.CounterBound` | server/viewmodel/ServerViewModel.cpp:194-214 | over every run the counter minus one is at most the peak number of clients plus the number of banned ids |
| `ServerRuns.LightLoadNeverWraps` | server/viewmodel/ServerViewModel.cpp:194-214 | below 2^32 - 2 of that sum an id is always left |
| `ServerRuns.BanIsFinal` | server/viewmodel/ServerViewModel.cpp:54-89 | after a ban no later step assigns the id, relays anything from it, announces it again or writes anything at all to its connection |
| `ServerRuns.BannedReceiveNothing` | server/viewmodel/ServerViewModel.cpp:65-89 | a banned client receives nothing: if its connection is still open, some step banned it, the connection was open then and has been shut down ever since, and nothing was written to it in that step or later |
| `ServerRuns.BannedDataDisconnects` | server/viewmodel/ServerViewModel.cpp:245-255 | a ban stays for the rest of the run, and whatever a banned client sends disconnects it, whoever else is connected |
| `ServerRuns.NoNewsNoChange` | server/viewmodel/PresenceBroadcaster.cpp:8-22 | a connection that has not been shut down and is told of nobody joining or leaving has missed no change but its own |
| `ServerRuns.BroadcastsAreExact` | server/viewmodel/handlers/OpaqueUnicastHandler.cpp:13-41 | in every run a broadcast from a client that is not banned changes nothing but outboxes: one relayed message for each other client that is not banned, under the sender's registry id, and nothing for anyone else |
| `ServerRuns.UnicastsAreExact` | server/viewmodel/handlers/ChatMessageHandler.cpp:41-59 | in every run a message to a connected client that is not banned is handed to it once and to nobody else; any other costs the sender exactly one Error |
| `ServerRuns.OneRoomPerPeriod` | server/viewmodel/ServerViewModel.cpp:223-230 | each period with clients begins with an accept whose AssignId alone tells a client to create the room |
| `ServerWire.HandedCrossesIff` | common/ModbusTcp.cpp:65-75 | in every run every message written to a connection can be encoded, and gets across if and only if its parts are within explicit bounds |
| `ServerWire.RefusalByIdCrosses` | server/viewmodel/handlers/ChatMessageHandler.cpp:41-50 | in every run a message by id that cannot be relayed costs its sender one Error, which quotes the id and gets across |
| `ServerWire.NicknameCrossesIff` | server/viewmodel/handlers/RegisterMessageHandler.cpp:9-35 | in every run a registration gets to the server if and only if the nickname has at most 65530 bytes, and the news of it to everyone else if and only if it has at most 65526 |
| `ServerViewModel.ServerViewModel.AllocateClientId` | server/viewmodel/ServerViewModel.cpp:194-207 | the two loops return the specified id and leave the specified pool |
| `ServerViewModel.ServerViewModel.ReleaseClientId` | server/viewmodel/ServerViewModel.cpp:209-214 | an id goes back to the pool unless it is banned |
| `ServerViewModel.ServerViewModel.Broadcast` | server/viewmodel/PresenceBroadcaster.cpp:16-22 | everyone but one is sent the message once, in whatever order the descriptors come |
| `ServerViewModel.ServerViewModel.SendEncoded` | server/viewmodel/handlers/ChatMessageHandler.cpp:59 | what the encoder throws is thrown before anything is sent |
| `ServerViewModel.ServerViewModel.SendError` | server/viewmodel/ServerViewModel.cpp:261-264 | exactly one Error reaches the sender, if need be the one about the text being too long |
| `ServerViewModel.ServerViewModel.HandleRegister` | server/viewmodel/handlers/RegisterMessageHandler.cpp:9-35 | the specified state; an exception leaves everything as it was |
| `ServerViewModel.ServerViewModel.RelayToPeers` | server/viewmodel/handlers/OpaqueUnicastHandler.cpp:30-40 | the loop sends once to each other client that is not banned |
| `ServerViewModel.ServerViewModel.HandleRelay` | server/viewmodel/handlers/ChatMessageHandler.cpp:9-60 | the specified state for chats, keys and room keys; an exception leaves everything as it was |
| `ServerViewModel.ServerViewModel.HandleListUsers` | server/viewmodel/handlers/ListUsersMessageHandler.cpp:7-11 | likewise for the list of users |
| `ServerViewModel.ServerViewModel.Dispatch` | server/viewmodel/MessageDispatcher.cpp:7-17 | likewise for any message |
| `ServerViewModel.ServerViewModel.RemoveClient` | server/viewmodel/ServerViewModel.cpp:233-243 | the specified state |
| `ServerViewModel.ServerViewModel.AcceptClient` | server/viewmodel/ServerViewModel.cpp:216-231 | the specified state, also when the counter wraps |
| `ServerViewModel.ServerViewModel.HandleClientData` | server/viewmodel/ServerViewModel.cpp:245-265 | the specified step, including the catch block's Error reply |
| `ServerViewModel.ServerViewModel.BroadcastBannedIds` | server/viewmodel/ServerViewModel.cpp:54-63 | the specified recipients, or an exception when there are too many ids |
| `ServerViewModel.ServerViewModel.MarkBanned` | server/viewmodel/ServerViewModel.cpp:65-75 | the loop collects the new ids in order of first mention and takes all of them out of the pool |
| `ServerViewModel.ServerViewModel.BanIds` | server/viewmodel/ServerViewModel.cpp:65-89 | the specified state, the shut connections included; with more than 65535 new ids it throws after banning them, with nobody told and nobody shut down |
| `ServerViewModel.ServerViewModel.ShutDown` | server/viewmodel/ServerViewModel.cpp:83-89 | the loop shuts down exactly the connections of the newly banned clients that are connected |
| `PollLoop.PollLoop.constructor` | server/viewmodel/ServerViewModel.cpp:117-122 | the loop starts with the listening socket alone and an empty history |
| `PollLoop.PollLoop.ProcessAdminQueue` | server/viewmodel/ServerViewModel.cpp:101-115 | the commands are ban steps of the run, one each and in order, up to the first with more new ids than can be announced; that one bans its ids, tells and shuts down nobody and throws |
| `PollLoop.PollLoop.ErrorPass` | server/viewmodel/ServerViewModel.cpp:141-148 | the pass adds one hang-up for each entry that failed, in the order of the entries, and nothing else; those entries are crossed out |
| `PollLoop.PollLoop.ReadyPass` | server/viewmodel/ServerViewModel.cpp:154-169 | the pass adds one accept if there was one, then for each readable entry one message with what arrived there, in the order of the entries, and nothing else, while accepting may grow the array |
| `PollLoop.PollLoop.EraseCrossedOut` | server/viewmodel/ServerViewModel.cpp:171-174 | what remains is the entries that were not crossed out, in order |
| `PollLoop.PollLoop.Turn` | server/viewmodel/ServerViewModel.cpp:141-174 | a turn adds, in this order, one hang-up for each failed entry, one accept exactly if the listening socket is readable and accept returned a descriptor, and one message for each entry that is readable and did not fail, each in the order of the entries; at the next loop head the array lists exactly the clients without repetition |
| `Replica.ClientMirrorsRegistry` | client/viewmodel/ClientViewModel.cpp:480-520 | after any number of consumed messages the client's nicknames of others are those of the registry as of the step that sent the last of them, and complete once a UsersList was among them |
| `OwnEntry.OwnEntryIsLastListed` | client/viewmodel/ClientViewModel.cpp:507-518 | after any number of consumed messages the client's own entry is the nickname it had in the registry at the step that sent the last UsersList among them |
| `OwnEntry.CopyIsExactIff` | client/viewmodel/ClientViewModel.cpp:480-520 | once a UsersList is among the consumed messages, the whole copy equals the registry as of the step that sent the last of them if and only if the client's nickname has not changed since the last UsersList |
| `OwnEntry.CopyIsExact` | client/viewmodel/ClientViewModel.cpp:480-520 | if nobody takes a nickname after having been sent a UsersList, every copy is a submap of the registry after any number of consumed messages, and equal to it once a UsersList is among them |
| `SmallRuns.ForeignClientMayBeStale` | server/viewmodel/PresenceBroadcaster.cpp:8-22 | a run, with a foreign client that asks for the list before it registers, at whose end that client's own entry is wrong |
| `NameIndex.ClientIndexIsExact` | client/viewmodel/ClientViewModel.cpp:480-520 | if each connection registers at most once, the client's nickname index is the exact inverse of its non-empty nicknames after any number of consumed messages; for messages as bytes see `Session.SessionIndexIsExact` |
| `NameIndex.RenameBreaksIndexIff` | client/viewmodel/ClientViewModel.cpp:480-494 | a rename breaks the index at exactly the clients that are still told of it and had an entry for the renamed one |
| `SmallRuns.RenameBreaksAnIndex` | client/viewmodel/ClientViewModel.cpp:480-494 | a run with a rename after which the other client looks up two nicknames as the same client |
| `SmallRuns.LongNicknameDoesNotCross` | common/ModbusTcp.cpp:65-75 | a run in which a Register of 65528 bytes crosses and the UserJoined it causes does not |
| `ClientBans.BannedPeerStaysForgotten` | client/viewmodel/ClientViewModel.cpp:464-469 | once a client has consumed a BannedIds naming x, x is not among its peer keys, whatever keys it had saved and however many more messages it consumes |
| `ClientBans.EarlierBanKeepsSavedKey` | client/viewmodel/ClientViewModel.cpp:126-141 | a client that connects after x was banned holds the key of x if and only if it had saved it, throughout the connection |
| `Client.LastWordOnKey` | client/viewmodel/ClientViewModel.cpp:428-469 | after any messages the key held of x is that of the last 32-byte PeerKey from x, none after a ban of x, or the saved one |
| `Client.AssignedIs` | client/viewmodel/ClientViewModel.cpp:169-190 | the assigned id is taken, and a room key is made exactly if the client is told to and has none |
| `Client.RoomKeyOpenedIff` | client/viewmodel/ClientViewModel.cpp:445-463 | a room key is taken if and only if it opens with the key shared with its sender and has 32 bytes; otherwise nothing changes |
| `Client.DecryptedIff` | client/viewmodel/ClientViewModel.cpp:356-385 | a text is obtained if and only if the key shared with the sender opens the body to it, or that is missing or fails and the room key does |
| `Client.NotDecryptedIff` | client/viewmodel/ClientViewModel.cpp:356-385 | nothing is obtained if and only if no key held opens the body to anything |
| `Cipher.OpensSealed` | common/crypto/IMessageCipher.hpp:28-43 | what one end seals for the other, the other opens |
| `Cipher.LawsAreConsistent` | common/crypto/IMessageCipher.hpp:20-52 | the laws assumed of the cipher can be met |
| `GossipTokens.ServeMovesStream` | server/viewmodel/handlers/OpaqueUnicastHandler.cpp:43-62 | handling a message moves an offer along its stream without reordering, or drops a bounced one from the front |
| `GossipPairs.MoveKeepsPairs` | client/viewmodel/ClientViewModel.cpp:237-289 | at every step of a client, failing sends included, each marked offer is in exactly one place: in a thread's hands, under way, arrived, or bounced |
| `GossipPairs.ServeKeepsPairs` | server/viewmodel/handlers/OpaqueUnicastHandler.cpp:13-63 | the server's steps keep that |
| `GossipPairs.JoinKeepsPairs` | server/viewmodel/ServerViewModel.cpp:216-231 | a new client keeps that |
| `GossipAuth.MoveKeepsAuth` | client/viewmodel/ClientViewModel.cpp:237-289 | every key held or under way belongs to the client it names, and every sealed room key is the one room key, whatever sends fail |
| `GossipAuth.ServeKeepsAuth` | server/viewmodel/handlers/OpaqueUnicastHandler.cpp:13-63 | the server's relaying keeps that |
| `GossipAuth.JoinKeepsAuth` | server/viewmodel/ServerViewModel.cpp:216-231 | a new client keeps that |
| `GossipLearning.MoveKeepsKnowledge` | client/viewmodel/ClientViewModel.cpp:428-463 | a client holds exactly the keys that the messages it has taken give it, whatever sends fail |
| `GossipConvergence.StepKeepsInv` | client/viewmodel/ClientViewModel.cpp:183-494 | every step of the exchange, failing sends included, keeps the invariant |
| `GossipConvergence.KeysAreGenuine` | client/viewmodel/ClientViewModel.cpp:183-189 | throughout every run a room key held is one that someone had saved or the creator made, and a peer key held is that peer's own |
| `GossipConvergence.OneRoomKeyIff` | client/viewmodel/ClientViewModel.cpp:183-189 | up to any point of a run nobody has held a room key other than the creator's if and only if whoever had saved one had saved the creator's |
| `GossipConvergence.KeyArrivedIff` | client/viewmodel/ClientViewModel.cpp:237-259 | whenever a run is at rest, whatever sends have failed, a client holds another's key if and only if the other has marked it and the offer did not bounce |
| `GossipConvergence.PairExchangedIff` | client/viewmodel/ClientViewModel.cpp:237-259 | whenever a run without failing sends is at rest two clients hold each other's keys if and only if the earlier one's offer did not bounce |
| `GossipConvergence.RoomKeyIff` | client/viewmodel/ClientViewModel.cpp:261-289 | whenever a run is at rest, whatever sends have failed, a client has a room key if and only if it created it, had saved one, or someone sent it one behind its own public key; with one room key around, that is the one |
| `GossipConvergence.ConvergedIff` | client/viewmodel/ClientViewModel.cpp:237-494 | whenever a run without failing sends is at rest everyone holds everyone's key if and only if no offer to a connected client bounced; with one room key around, everyone holds that too if and only if besides each client but the creator had saved it or was sent it in order |
| `GossipPolite.PoliteRunsConverge` | client/viewmodel/ClientViewModel.cpp:237-494 | in every run without failing sends in which `/key` names connected clients only and is not used by the room's creator, whenever it is at rest everyone holds everyone's key and a room key, which is the creator's if nobody had saved another |
| `GossipCounts.OneKeyPerPair` | client/viewmodel/ClientViewModel.cpp:242-249 | in every run, whatever sends fail, a client has successfully sent its key to another at most once and never to itself |
| `GossipCounts.ExchangeIsBounded` | client/viewmodel/ClientViewModel.cpp:237-289 | in every run, whatever sends fail, n clients have sent one another at most n(n-1) keys, and no more room keys than keys received |
| `GossipMeasure.RunPays` | client/viewmodel/ClientViewModel.cpp:237-289 | in every run each step the system takes by itself, a failing send included, lowers a measure of marks, messages under way and unfinished work |
| `GossipMeasure.ComesToRest` | client/viewmodel/ClientViewModel.cpp:237-289 | from any point of any run the measure bounds the number of steps, failing sends included, until a command or a new client |
| `GossipMeasure.NeverStuck` | client/viewmodel/ClientViewModel.cpp:416-463 | as long as something is under way some step is possible |
| `WorldLosses.EarlyRequestIsNeverRepaired` | client/viewmodel/ClientViewModel.cpp:242-256 | a run of the server with its clients that comes to rest with two clients that do not know each other's key |
| `WorldLosses.OvertakingLosesTheRoomKey` | client/viewmodel/ClientViewModel.cpp:242-252 | a run of the server with its clients that comes to rest with a client that has no room key |
| `WorldLosses.SavedRoomKeysAreSwapped` | client/viewmodel/ClientViewModel.cpp:183-189 | a run of the server with its clients in which two clients with different saved room keys come to rest with each other's |
| `WorldLosses.CanConnect` | server/viewmodel/ServerViewModel.cpp:216-231 | as long as ids last, every join of the exchange is a step of the whole system |
| `WorldLosses.CanRelay` | server/viewmodel/handlers/OpaqueUnicastHandler.cpp:43-62 | every relaying step of the exchange is a step of the whole system |
| `Churn.SiteStepKeepsInv` | server/viewmodel/ServerViewModel.cpp:117-178 | with clients that come, leave, are banned and use ids again, every step keeps server and clients in agreement |
| `Churn.UndisturbedStepsPay` | client/viewmodel/ClientViewModel.cpp:237-289 | there, every step but an accept, a ban and a user's command lowers a measure, leaving and failing sends included |
| `Churn.RestsUnlessDisturbed` | client/viewmodel/ClientViewModel.cpp:237-289 | from any point of any such run the measure bounds the number of steps until an accept, a ban or a command |
| `Churn.NeverStuck` | client/viewmodel/ClientViewModel.cpp:416-463 | there too, as long as something is under way some step is possible |
| `World.ServerAnswers` | server/viewmodel/handlers/OpaqueUnicastHandler.cpp:13-63 | the server's handlers answer every message a client may have sent as the exchange assumes |
| `World.ConnectIsJoin` | server/viewmodel/ServerViewModel.cpp:216-231 | accept_client is the join of the exchange |
| `World.HandleIsServe` | server/viewmodel/ServerViewModel.cpp:245-265 | handle_client_data is the serving step of the exchange |
| `World.WorldStepRefines` | server/viewmodel/ServerViewModel.cpp:216-265 | one step of the whole system is one step of the exchange and keeps server and clients in agreement |
| `World.WorldRefinesGossip` | server/viewmodel/ServerViewModel.cpp:117-178 | every run of the server with its clients is a run of the exchange |
| `World.WorldConverges` | client/viewmodel/ClientViewModel.cpp:237-494 | hence the whole system converges under the same rule on commands, to one room key if nobody had saved another |
| `WorldReplica.WorldCopiesAreExact` | client/viewmodel/ClientViewModel.cpp:192-209 | in every run of the whole system every client's copy of the membership is a submap of the registry as it was when the last message it took was sent, and equal to it once it has taken a UsersList |
| `WorldReplica.ServerRunOf` | server/viewmodel/ServerViewModel.cpp:117-178 | the servers of a run of the whole system are a run of the server in which nobody takes a nickname after having been sent a UsersList |
| `WorldWire.ExchangeAlwaysFits` | client/viewmodel/ClientViewModel.cpp:237-289 | in every run of the whole system every id, key and room key sent or handed out fits its frame |
| `WorldWire.DownArrivesIff` | common/ModbusTcp.cpp:65-123 | in every run of the whole system what a client has been handed arrives as it is if and only if all of it fits |
| `WorldWire.UpArrivesIff` | common/ModbusTcp.cpp:65-123 | the same for what a client has sent |
| `IdReuse.NextGetsIdIff` | server/viewmodel/ServerViewModel.cpp:194-214 | the id of a client that leaves goes to the next newcomer if and only if no smaller id is free |
| `IdReuse.NewcomerOfferedIff` | client/viewmodel/ClientViewModel.cpp:480-494 | a client told of a newcomer offers it its key if and only if it has never sent an offer to that id |
| `IdReuse.NoSecondOffer` | client/viewmodel/ClientViewModel.cpp:237-259 | a client that has offered its key to an id never offers it to that id again, under every interleaving of its threads and every pattern of other failing sends |
| `IdReuse.AskingDoesNotHelp` | client/viewmodel/ClientViewModel.cpp:428-463 | a newcomer with a used id that asks for a key is sent at most a room key, which it drops |
| `IdReuse.KeyOutlivesHolder` | client/viewmodel/ClientViewModel.cpp:496-506 | leaving and joining change no peer key |
| `IdReuse.ReusedIdIsNotKeyed` | server/viewmodel/ServerViewModel.cpp:194-243 | a run in which an id is handed out twice and the client that stayed sends it one KeyOffer only |
| `ClientViewModel.OneMoreOffer` | client/viewmodel/ClientViewModel.cpp:242-249 | marks and sent offers keep matching one to one |
| `ClientViewModel.ProcessedIsGossip` | client/viewmodel/ClientViewModel.cpp:416-525 | handle_incoming without interruption is a chain of the exchange's steps, whatever sends fail |
| `ClientViewModel.ProcessedAllCopies` | client/viewmodel/ClientViewModel.cpp:416-525 | handling any sequence of messages, whatever sends fail, leaves exactly the membership copy and the peer keys that the sequence gives |
| `ClientViewModel.QuietMessages` | client/viewmodel/ClientViewModel.cpp:416-525 | only keys and announcements of others make the client send, and a key of the wrong size changes nothing |
| `ClientViewModel.NoKeyNothingSent` | client/viewmodel/ClientViewModel.cpp:291-354 | without the recipient's key, or the room key, nothing is sent and the call fails |
| `ClientViewModel.SealedForOne` | client/viewmodel/ClientViewModel.cpp:291-316 | with the key a text of at most 65495 bytes is sent once, to that recipient, and opens to the text with the recipient's secret; a longer one is not sent |
| `ClientViewModel.SealedForAll` | client/viewmodel/ClientViewModel.cpp:333-354 | the same to all with the room key |
| `ClientViewModel.KeyIsOffered` | client/viewmodel/ClientViewModel.cpp:237-259 | an offer is one send of the public key to that peer, marked exactly if it succeeds; none for oneself, id 0 or a marked peer |
| `ClientViewModel.RoomKeyIsSealed` | client/viewmodel/ClientViewModel.cpp:261-289 | the room key is one send to that peer that opens to it with the peer's secret; none without the keys |
| `ClientViewModel.ClientViewModel.SendKeyOffer` | client/viewmodel/ClientViewModel.cpp:237-259 | marked exactly if sent, under any pattern of failing sends; what is sent is the public key to that peer, at most once per peer |
| `ClientViewModel.ClientViewModel.MaybeSendRoomKey` | client/viewmodel/ClientViewModel.cpp:261-289 | without a room key or the peer's key nothing is sent; with them one send to that peer is attempted, which opens to the room key with the peer's secret |
| `ClientViewModel.ClientViewModel.SendEncryptedChatById` | client/viewmodel/ClientViewModel.cpp:291-316 | without the recipient's key nothing is sent and the call fails; with it one send is attempted, the call succeeds exactly if that does, and what was sent is a chat to the recipient that opens to the text with the recipient's secret |
| `ClientViewModel.ClientViewModel.SendEncryptedChatByNickname` | client/viewmodel/ClientViewModel.cpp:318-331 | for an unknown nickname nothing is sent and the call fails; otherwise the same for the id the client's index gives |
| `ClientViewModel.ClientViewModel.SendEncryptedBroadcast` | client/viewmodel/ClientViewModel.cpp:333-354 | without a room key nothing is sent and the call fails; with it the same with a chat to all that opens with the room key |
| `ClientViewModel.ClientViewModel.ReceiveAssignedId` | client/viewmodel/ClientViewModel.cpp:169-190 | takes the id, and creates a room key exactly if told to and there is none |
| `ClientViewModel.ClientViewModel.DecryptDeliver` | client/viewmodel/ClientViewModel.cpp:356-385 | the peer key first, then the room key; nothing if and only if no key held opens the body |
| `ClientViewModel.ClientViewModel.NoteUsers` | client/viewmodel/ClientViewModel.cpp:507-518 | the loop enters every listed user |
| `ClientViewModel.ClientViewModel.TakeRoomKey` | client/viewmodel/ClientViewModel.cpp:445-463 | a room key is taken exactly if it opens with a known peer's key and has the right size |
| `ClientViewModel.ClientViewModel.HandleIncoming` | client/viewmodel/ClientViewModel.cpp:416-525 | the specified client state and sends for every message; what is shown opens from a delivered body under a key held, and nothing is shown of a body that no key held opens |
| `Session.ArriveIff` | common/transport/ModbusMessageTransport.cpp:5-17 | messages sent one after the other are received as they are, with no exception, if and only if every one fits a frame |
| `Session.ReceiveOne` | client/viewmodel/ClientViewModel.cpp:529-539 | one turn of the loop takes exactly the next frame; an exception changes nothing |
| `Session.ReceiveLoop` | client/viewmodel/ClientViewModel.cpp:527-541 | the loop handles exactly the messages the stream decodes to, in order, until it ends |
| `Session.RunSession` | client/viewmodel/ClientViewModel.cpp:169-209 | a session comes about exactly if an AssignId comes first and the nickname encodes, and leaves the specified client and sends |
| `Session.SessionStartsIff` | client/viewmodel/ClientViewModel.cpp:169-202 | a session comes about if and only if an AssignId is the first thing to arrive and the nickname has at most 65535 bytes |
| `Session.RegisterIsFirst` | client/viewmodel/ClientViewModel.cpp:192-202 | a session with a nickname first sends its Register, if that send works, and never another; all else it sends by itself are keys and room keys |
| `Session.StartIsGossip` | client/viewmodel/ClientViewModel.cpp:169-202 | a session that has read only its AssignId, and whose Register goes out, is where the step Starts of the key exchange leaves the client |
| `Session.ReachesGreeted` | server/viewmodel/ServerViewModel.cpp:216-231 | in every run the first message of every connection assigns its client the id the registry has for it |
| `Session.HandedArriveIff` | common/ModbusTcp.cpp:65-123 | in every run what a connection has been handed arrives as it is if and only if all of it fits |
| `Session.SessionCopies` | client/viewmodel/ClientViewModel.cpp:169-209 | if it fits, the client ends with the registry's id for it and with the copy and the keys those messages make of the keys it had saved |
| `Session.SessionMirrors` | client/viewmodel/ClientViewModel.cpp:480-541 | from bytes to copy: if it fits, the copy mirrors the registry as of the step that sent the last message |
| `Session.SessionCopyIsExactIff` | client/viewmodel/ClientViewModel.cpp:480-541 | from bytes to the whole copy, the client's own entry included: if it fits and a UsersList is among the messages, the copy equals the registry if and only if the client's nickname has not changed since the last UsersList |
| `Session.SessionIndexIsExact` | client/viewmodel/ClientViewModel.cpp:480-541 | from bytes to index: if it fits and nobody was renamed, the nickname index is exact |
| `Session.SessionForgets` | client/viewmodel/ClientViewModel.cpp:464-541 | from bytes to keys: if it fits, no key is held of an id whose ban was among the messages |
| `PeerKeyStore.KeyStoreRoundTrip` | common/crypto/PeerKeyStore.cpp:63-131 | a store with an identity and at most 65535 peers is read back exactly, whatever was in memory and in whatever order the peers were written |
| `PeerKeyStore.AcceptedIff` | common/crypto/PeerKeyStore.cpp:86-131 | a blob is accepted if and only if it has the version byte and is long enough for what it announces, and gives a store the setters could have built |
| `WireFormat.KeyStoreBytes` | common/crypto/PeerKeyStore.cpp:63-84 | a blob is, byte by byte, version 1, both keys, the room key's flag and key, the number of peers and each peer's id and key |
| `WireFormat.KeyStoreRefuses` | common/crypto/PeerKeyStore.cpp:86-113 | which blobs are refused in which words, and what the store is like then |
| `WireFormat.OneMorePeer` | common/crypto/PeerKeyStore.cpp:118-130 | each entry read adds its id with its key, or replaces the key the id had |
| `PeerKeyStore.PeerKeyStore.SetIdentity` | common/crypto/PeerKeyStore.cpp:15-21 | sets both keys exactly if both have 32 bytes; otherwise throws, in these words, and changes nothing |
| `PeerKeyStore.PeerKeyStore.SetRoomKey` | common/crypto/PeerKeyStore.cpp:23-28 | sets the key exactly if it has 32 bytes; otherwise throws, in these words, and changes nothing |
| `PeerKeyStore.PeerKeyStore.ClearRoomKey` | common/crypto/PeerKeyStore.cpp:30-32 | forgets the room key and nothing else |
| `PeerKeyStore.PeerKeyStore.SetPeerPublic` | common/crypto/PeerKeyStore.cpp:34-39 | sets one peer's key exactly if it has 32 bytes; otherwise throws, in these words, and changes nothing |
| `PeerKeyStore.PeerKeyStore.ErasePeer` | common/crypto/PeerKeyStore.cpp:41-43 | forgets one peer and nothing else |
| `PeerKeyStore.PeerKeyStore.ErasePeers` | common/crypto/PeerKeyStore.cpp:45-49 | the loop removes exactly the listed peers |
| `PeerKeyStore.PeerKeyStore.AppendPeers` | common/crypto/PeerKeyStore.cpp:79-82 | the loop over the hash map writes every peer exactly once |
| `PeerKeyStore.PeerKeyStore.Serialize` | common/crypto/PeerKeyStore.cpp:63-84 | the loop writes the blob of some order of the peers; it throws exactly without an identity or with over 65535 peers, and says which |
| `PeerKeyStore.PeerKeyStore.ReadPeers` | common/crypto/PeerKeyStore.cpp:119-130 | the loop with the moving offset reads what the recursive definition does |
| `PeerKeyStore.PeerKeyStore.Deserialize` | common/crypto/PeerKeyStore.cpp:86-131 | the restored store, or the exception with the store overwritten as far as it got |
| `EndToEnd.CrossesIff` | common/Protocol.cpp:91-99 | a well-formed message gets across a connection unchanged if and only if its PDU has at most 65534 bytes; otherwise the receiver takes something else for it, whatever follows |
| `EndToEnd.CrossesIffFits` | common/Protocol.cpp:91-271 | the same as explicit bounds on the parts of each of the fourteen types |
| `EndToEnd.SealedChatCrossesIff` | client/viewmodel/ClientViewModel.cpp:291-316 | a sealed text reaches the server if and only if it has at most 65481 bytes |
| `EndToEnd.TextArrives` | client/viewmodel/ClientViewModel.cpp:418-426 | such a text between two clients that hold each other's keys is shown unchanged with the sender's id, and nobody else is sent anything |
| `EndToEnd.SealedBroadcastCrossesIff` | client/viewmodel/ClientViewModel.cpp:333-354 | a text to all reaches the server if and only if it has at most 65485 bytes |
| `EndToEnd.RoomUnsealed` | client/viewmodel/ClientViewModel.cpp:356-385 | trying the peer key first never spoils a text sealed with the room key |
| `EndToEnd.BroadcastArrives` | client/viewmodel/ClientViewModel.cpp:333-385 | such a text is written once to every other client that is not banned, and shown unchanged by each that holds the room key |
| `WorkQueue.EveryItemAccountedFor` | common/concurrency/QueuedCommandExecutor.hpp:25-65 | under every interleaving the accepted items are done, at most one in hand, and queued, in order |
| `WorkQueue.AcceptedIsPosted` | common/concurrency/QueuedCommandExecutor.hpp:25-37 | in every run exactly the items posted before the first stop have been accepted, in the order they were posted |
| `WorkQueue.StopDrains` | common/concurrency/QueuedCommandExecutor.hpp:39-48 | when stop returns every item posted before stop cleared the flag has been executed exactly once and in order, and nothing runs or is accepted afterwards |
| `WorkQueue.StopMakesProgress` | common/logging/FileLogger.cpp:81-123 | after running_ is cleared nobody adds work and every step of the worker removes some |
| `WorkQueue.WorkerNeverStuck` | common/logging/FileLogger.cpp:102-123 | until it has exited the worker always has a step to take |
| `WorkQueue.FlushIff` | common/logging/FileLogger.cpp:76-79 | when flush returns at most one entry is unwritten, and none if and only if the writer's hand is empty |
| `WorkQueue.FlushMayReturnEarly` | common/logging/FileLogger.cpp:102-123 | a run in which flush returns before the only entry is written |
| `WorkQueue.Executor.PostItem` | common/concurrency/QueuedCommandExecutor.hpp:25-37 | while running the item goes to the back of the queue, after stop it is refused; nothing else changes |
| `WorkQueue.Executor.TakeFront` | common/concurrency/QueuedCommandExecutor.hpp:51-62 | the worker's critical section: take the front item or exit |
| `WorkQueue.Executor.Execute` | common/concurrency/QueuedCommandExecutor.hpp:63 | the item in hand is done |
| `WorkQueue.Executor.StopAndJoin` | common/concurrency/QueuedCommandExecutor.hpp:39-48 | stop terminates with everything executed |

## Left out

- Sockets, poll, signals and process start-up: accept returns a descriptor that is not open, reads return any positive part of what has arrived or fail, and what poll reports is arbitrary.
- Monocypher and randomness: the cipher is used through its laws; nonces, keys and room keys are parameters.
- `EncryptedKeyStoreFile` and `Config`: file access around simple lookups.
- Console views, output commands, `IncomingMessagePresenter` and start-up progress: forwarding only.
- `InputCommandParser` and `AdminCommandParser`: the model starts at parsed commands.
- `Message.hpp`: a smaller duplicate of the codec.
- `request_stop` in the middle of a turn and `disconnect_all_clients`: the run ends when running_ becomes false.
- Sends that fail at the server for other reasons than a shutdown: what is sent to a connection that is open and not shut down counts as written, also if the client has just gone.
- Sends of a client's two threads at the same time: each send is taken as indivisible, but the threads write to one socket without a lock and `write_exact` may send in parts, so that their frames can interleave.
- Disconnects and bans in the results about who holds which key: the runs of `Gossip` and `World` are without them; `Churn` covers them as to coming to rest, and `IdReuse` says what a disconnect does to a newcomer's keys.
- Failing sends in the convergence theorems: `GossipConvergence.PairExchangedIff`, `GossipConvergence.ConvergedIff`, `GossipPolite.PoliteRunsConverge` and `World.WorldConverges` are about runs without them; everything else about the exchange covers them. A failing send is taken to leave no part of its frame behind.
- Bytes in the key exchange: in the runs of `Gossip` and `World` every message handed out is taken as it is; `WorldWire.DownArrivesIff` and `WorldWire.UpArrivesIff` say when that is so, which excludes nicknames, chats, lists and errors too long for a frame but no message of the exchange.
- Saved peer keys in the key exchange: the clients of `Gossip` start without any, and with any room key; `Churn`, `ClientBans` and `Session` start from any.
- Reopening a `FileLogger` after stop, and a null command handed to `post`.
- Aliasing of the registry's records: `find_by_fd` returns a reference into the map in the program and a value here.
- Replica.ClientMirrorsRegistry: leaves out the client's own entry, which is the subject of `OwnEntry.OwnEntryIsLastListed` and `OwnEntry.CopyIsExactIff`.
- Session.SessionMirrors: likewise, see `Session.SessionCopyIsExactIff`.
- Session.RunSession: leaves out the input thread beside the receive loop; its interleavings are those of `Gossip`.
- PollLoop.PollLoop.Turn: assumes that an id is left to hand out when a connection is accepted; without one the counter wraps, see `ServerSafety.AcceptValidIff`.
- GossipPolite.PoliteRunsConverge: the rule on commands is sufficient and not necessary; the exact condition, `GossipConvergence.ConvergedIff`, speaks of what the exchange did.
