/** Which messages one step of the server hands to which connection. */
module ServerSends {
  import opened Bytes
  import opened Messages
  import opened Registry
  import opened Server
  import opened ServerSafety

  /** The messages of the connection on g before the step: an accept opens a new, empty one. */
  ghost function Before(s: Server, e: Event, g: Fd): seq<AppMessage> {
    if e == Accept(g) || g !in s.outbox then [] else s.outbox[g]
  }

  /** The step from s to s' hands the messages ms, in order, to the connection on g. */
  ghost predicate Hands(s: Server, e: Event, s': Server, g: Fd, ms: seq<AppMessage>) {
    g in s'.outbox && s'.outbox[g] == Before(s, e, g) + ms
  }

  ghost predicate Appends(s: Server, e: Event, g: Fd, ms: seq<AppMessage>)
    requires Valid(s)
  {
    Hands(s, e, Step(s, e), g, ms)
  }

  /** The step's only effect is one message to fd. */
  lemma PushSends(s: Server, e: Event, fd: Fd, m: AppMessage, g: Fd)
    requires Valid(s) && !e.Accept? && fd in s.reg.clients && g in s.reg.clients && !Muted(s, fd)
    requires Step(s, e) == Sent(s, fd, m)
    ensures OnlySends(s, Step(s, e))
    ensures Appends(s, e, g, if g == fd then [m] else [])
  {
  }

  lemma AcceptSends(s: Server, fd: Fd, g: Fd)
    requires Valid(s) && Enabled(s, Accept(fd)) && g in Step(s, Accept(fd)).reg.clients
    ensures Appends(s, Accept(fd), g,
                    if g == fd then [AssignId(AllocatedId(s), s.reg.clients == map[])]
                    else if Muted(s, g) then [] else [UserJoined(AllocatedId(s), [])])
  {
  }

  lemma RemoveSends(s: Server, e: Event, fd: Fd, g: Fd)
    requires Valid(s) && Enabled(s, e) && !e.Accept? && fd in s.reg.clients && Step(s, e) == Removed(s, fd)
    requires g in Step(s, e).reg.clients
    ensures g != fd
    ensures Appends(s, e, g, if Muted(s, g) then [] else [UserLeft(s.reg.clients[fd].id, s.reg.clients[fd].nickname)])
  {
  }

  lemma BanSends(s: Server, ids: seq<nat>, g: Fd)
    requires Valid(s) && g in s.reg.clients
    ensures Appends(s, Ban(ids), g,
                    var newIds := NewlyBanned(ids, s.banned);
                    if newIds == [] || s.reg.clients[g].id in s.banned + NonZero(ids) then [] else [BannedIds(newIds)])
  {
  }

  /** The event is handled by the dispatcher: its sender is connected and not banned. */
  ghost predicate Dispatches(s: Server, e: Event) {
    e.Data? && e.fd in s.reg.clients && s.reg.clients[e.fd].id !in s.banned && !e.incoming.Closed?
  }

  lemma RegisterSends(s: Server, e: Event, g: Fd)
    requires Valid(s) && Enabled(s, e) && Dispatches(s, e) && e.incoming.Received? && e.incoming.message.Register?
    requires g in s.reg.clients
    ensures var nickname := e.incoming.message.nickname;
            if MayTakeNickname(s.reg, e.fd, nickname) then
              Appends(s, e, g, if g == e.fd || Muted(s, g) then [] else [UserJoined(s.reg.clients[e.fd].id, nickname)])
            else OnlySends(s, Step(s, e)) && RepliesError(s, e, g)
  {
    var nickname := e.incoming.message.nickname;
    assert Step(s, e) == Registered(s, e.fd, nickname);
    if !MayTakeNickname(s.reg, e.fd, nickname) {
      var text := if nickname == [] then Text("Nickname cannot be empty")
                  else if nickname == BroadcastRecipient() then Text("Nickname 'all' is reserved")
                  else Text("Nickname already taken");
      ErrorSends(s, e, text, g);
    }
  }

  /** Some other client has the nickname. */
  ghost predicate HeldByOther(reg: Registry, fd: Fd, nickname: seq<Byte>)
    requires reg.ValidIds() && fd in reg.clients
  {
    exists id :: id in reg.Names() && id != reg.clients[fd].id && reg.Names()[id] == nickname
  }

  /** A nickname may be taken if and only if it is not empty, not "all", and nobody else has it. */
  lemma MayTakeIff(reg: Registry, fd: Fd, nickname: seq<Byte>)
    requires reg.Valid() && fd in reg.clients && |nickname| <= 65535
    ensures MayTakeNickname(reg, fd, nickname) <==>
            nickname != [] && nickname != [97, 108, 108] && !HeldByOther(reg, fd, nickname)
    ensures nickname != [] ==> (reg.NicknameTakenByOther(nickname, reg.clients[fd].id) <==> HeldByOther(reg, fd, nickname))
    ensures BroadcastRecipient() == [97, 108, 108]
  {
    assert BroadcastRecipient() == [97, 108, 108];
    if nickname != [] && nickname in reg.idByNickname {
      var id := reg.idByNickname[nickname];
      assert reg.Names()[id] == nickname;
    }
    if nickname != [] && HeldByOther(reg, fd, nickname) {
      var id :| id in reg.Names() && id != reg.clients[fd].id && reg.Names()[id] == nickname;
      var f := reg.fdById[id];
      assert f in reg.clients && reg.clients[f].nickname == nickname;
    }
  }

  /** The words with which a registration is refused. */
  lemma RegisterRefusals(s: Server, e: Event, g: Fd)
    requires Valid(s) && Enabled(s, e) && Dispatches(s, e) && e.incoming.Received? && e.incoming.message.Register?
    requires g in s.reg.clients
    ensures var nickname := e.incoming.message.nickname;
            && (nickname == [] ==> Refuses(s, e, g, Text("Nickname cannot be empty")))
            && (nickname == [97, 108, 108] ==> Refuses(s, e, g, Text("Nickname 'all' is reserved")))
            && (nickname != [] && nickname != [97, 108, 108] && HeldByOther(s.reg, e.fd, nickname) ==>
                  Refuses(s, e, g, Text("Nickname already taken")))
  {
    hide Valid, HeldByOther, Refuses, ErrorReplied, Relayed, UsersListed, Enabled;
    var nickname := e.incoming.message.nickname;
    NicknameFits(s, e);
    ValidParts(s);
    MayTakeIff(s.reg, e.fd, nickname);
    if nickname == [] {
      RefusedBy(s, e, g, Text("Nickname cannot be empty"));
    } else if nickname == [97, 108, 108] {
      RefusedBy(s, e, g, Text("Nickname 'all' is reserved"));
    } else if HeldByOther(s.reg, e.fd, nickname) {
      RefusedBy(s, e, g, Text("Nickname already taken"));
    }
  }

  lemma NicknameFits(s: Server, e: Event)
    requires Enabled(s, e) && e.Data? && e.incoming.Received? && e.incoming.message.Register?
    ensures |e.incoming.message.nickname| <= 65535
  {
  }

  lemma ValidParts(s: Server)
    requires Valid(s)
    ensures s.reg.Valid() && s.reg.ValidIds()
  {
  }

  /** Only the sender is told, in these words. */
  ghost predicate Refuses(s: Server, e: Event, g: Fd, text: seq<Byte>)
    requires Valid(s) && e.Data?
  {
    Appends(s, e, g, if g == e.fd then [Error(text)] else [])
  }

  lemma RefusedBy(s: Server, e: Event, g: Fd, text: seq<Byte>)
    requires Valid(s) && Dispatches(s, e) && g in s.reg.clients
    requires |text| <= MAX_U16_COUNT && Step(s, e) == ErrorReplied(s, e.fd, text)
    ensures Refuses(s, e, g, text)
  {
    hide Step;
    PushSends(s, e, e.fd, Error(text), g);
  }

  /** What does not decode is answered with the decoder's own words. */
  lemma MalformedRefusal(s: Server, e: Event, g: Fd)
    requires Valid(s) && Enabled(s, e) && Dispatches(s, e) && g in s.reg.clients && e.incoming.Malformed?
    ensures Refuses(s, e, g, e.incoming.what)
  {
    assert Step(s, e) == ErrorReplied(s, e.fd, e.incoming.what);
    hide Step, Valid, Refuses, ErrorReplied;
    RefusedBy(s, e, g, e.incoming.what);
  }

  /** A message that only servers send. */
  predicate FromServersOnly(m: AppMessage) {
    || m.AssignId? || m.Deliver? || m.Error? || m.UserJoined? || m.UserLeft? || m.UsersList?
    || m.BannedIds? || m.PeerKey? || m.RoomKey?
  }

  lemma UnsupportedRefusal(s: Server, e: Event, g: Fd)
    requires Valid(s) && Dispatches(s, e) && g in s.reg.clients && e.incoming.Received? && FromServersOnly(e.incoming.message)
    ensures Refuses(s, e, g, Text("Unsupported message type"))
  {
    hide ErrorReplied, Relayed, Registered, UsersListed, Refuses, Valid;
    RefusedBy(s, e, g, Text("Unsupported message type"));
  }

  lemma TooManyUsersRefusal(s: Server, e: Event, g: Fd)
    requires Valid(s) && Dispatches(s, e) && g in s.reg.clients && e.incoming == Received(ListUsers) && s.reg.ValidIds()
    requires |s.reg.Names()| > 65535
    ensures Refuses(s, e, g, Text("Too many users"))
  {
    hide ErrorReplied, SortedUsers, Refuses, Valid;
    assert |SortedUsers(s.reg.Names())| == |s.reg.Names().Keys| == |s.reg.Names()|;
    RefusedBy(s, e, g, Text("Too many users"));
  }

  /** Exactly one Error goes to the sender, and nothing to anyone else. */
  ghost predicate RepliesError(s: Server, e: Event, g: Fd)
    requires Valid(s) && e.Data?
  {
    exists text :: |text| <= MAX_U16_COUNT && Appends(s, e, g, if g == e.fd then [Error(text)] else [])
  }

  lemma ErrorSends(s: Server, e: Event, text: seq<Byte>, g: Fd)
    requires Valid(s) && e.Data? && e.fd in s.reg.clients && g in s.reg.clients && !Muted(s, e.fd)
    requires Step(s, e) == ErrorReplied(s, e.fd, text)
    ensures OnlySends(s, Step(s, e))
    ensures RepliesError(s, e, g)
  {
    var told := if |text| <= MAX_U16_COUNT then text else Text("String too long");
    PushSends(s, e, e.fd, Error(told), g);
  }

  // ----- relays -----

  /** The connected client a chat is addressed to, as the registry's id-to-nickname view tells it. */
  ghost predicate Addressed(s: Server, chat: ChatPayload, id: nat)
    requires s.reg.ValidIds()
  {
    && id in s.reg.fdById
    && if chat.recipientTag == RECIPIENT_BY_ID then |chat.recipientData| == 4 && id == ReadU32(chat.recipientData)
       else
         && chat.recipientTag == RECIPIENT_BY_NICKNAME
         && s.reg.Names()[id] != []
         && DecodeString(chat.recipientData) == Ok(s.reg.Names()[id])
  }

  function RelayOf(m: AppMessage): (r: Option<Relay>) {
    match m
    case Chat(_) => Some(ChatRelay)
    case KeyOffer(_) => Some(KeyRelay)
    case RoomKeyOffer(_) => Some(RoomRelay)
    case _ => None
  }

  /** The event is a relayed message from a connected client that is not banned. */
  ghost predicate IsRelay(s: Server, e: Event, chat: ChatPayload, relay: Relay) {
    && Dispatches(s, e) && e.incoming.Received?
    && RelayOf(e.incoming.message) == Some(relay) && e.incoming.message.chat == chat
  }

  /** A broadcast reaches each other client that is not banned exactly once, and nobody else. */
  lemma BroadcastSends(s: Server, e: Event, chat: ChatPayload, relay: Relay, g: Fd)
    requires Valid(s) && Enabled(s, e) && IsRelay(s, e, chat, relay) && chat.recipientTag == RECIPIENT_BROADCAST
    requires g in s.reg.clients
    ensures OnlySends(s, Step(s, e))
    ensures Appends(s, e, g,
                    if g != e.fd && s.reg.clients[g].id !in s.banned
                    then [Wrapped(relay, s.reg.clients[e.fd].id, chat.text)] else [])
  {
    assert Step(s, e) == Relayed(s, e.fd, chat, relay);
  }

  /** Resolution finds a client exactly when one is addressed, and then that one. */
  lemma ResolvesAddressed(s: Server, chat: ChatPayload)
    requires Valid(s) && WellFormedChat(chat) && chat.recipientTag != RECIPIENT_BROADCAST
    ensures s.reg.RecipientLabel(chat).Ok? && s.reg.ResolveRecipient(chat).Ok?
    ensures forall id: nat :: s.reg.ResolveRecipient(chat).value == Some(id) <==> Addressed(s, chat, id)
  {
    if chat.recipientTag == RECIPIENT_BY_NICKNAME {
      var nickname := DecodeString(chat.recipientData).value;
      forall id: nat | Addressed(s, chat, id)
        ensures nickname in s.reg.idByNickname && s.reg.idByNickname[nickname] == id
      {
        var f := s.reg.fdById[id];
        assert s.reg.Names()[id] == s.reg.clients[f].nickname == nickname;
        assert f in s.reg.clients && s.reg.clients[f].nickname in s.reg.idByNickname;
      }
    }
  }

  /**
   * A message addressed to one client reaches that client exactly once and nobody else, always with the
   * sender's registered id; when there is no such client, or it is banned, exactly one Error goes to
   * the sender, even if the text of the error did not fit.
   */
  lemma UnicastSends(s: Server, e: Event, chat: ChatPayload, relay: Relay, g: Fd)
    requires Valid(s) && Enabled(s, e) && IsRelay(s, e, chat, relay) && chat.recipientTag != RECIPIENT_BROADCAST
    requires g in s.reg.clients
    ensures OnlySends(s, Step(s, e))
    ensures forall id: nat :: Addressed(s, chat, id) && id !in s.banned ==>
              Appends(s, e, g, if s.reg.clients[g].id == id then [Wrapped(relay, s.reg.clients[e.fd].id, chat.text)] else [])
    ensures (forall id: nat :: Addressed(s, chat, id) ==> id in s.banned) ==> RepliesError(s, e, g)
  {
    assert Step(s, e) == Relayed(s, e.fd, chat, relay);
    ResolvesAddressed(s, chat);
    hide Step, Addressed, WellFormed;
    var resolved := s.reg.ResolveRecipient(chat).value;
    if resolved.Some? && resolved.value !in s.banned {
      assert Addressed(s, chat, resolved.value);
      var fd := s.reg.fdById[resolved.value];
      PushSends(s, e, fd, Wrapped(relay, s.reg.clients[e.fd].id, chat.text), g);
    } else {
      var text := (if resolved.Some? then Text("Recipient banned: ") else Text("Unknown recipient: "))
                  + s.reg.RecipientLabel(chat).value;
      ErrorSends(s, e, text, g);
    }
  }

  /** The text of a refusal: a client that is not connected, or one that is banned. */
  function Refusal(connected: bool, recipient: seq<Byte>): seq<Byte> {
    (if connected then Text("Recipient banned: ") else Text("Unknown recipient: ")) + recipient
  }

  /** An id prints in at most ten digits, so a refusal that quotes it always fits. */
  lemma RefusedIdFits(connected: bool, id: nat)
    requires id < U32_LIMIT
    ensures |Refusal(connected, Decimal(id))| <= 29
  {
    assert PowerOfTen(10) == 10_000_000_000;
    DecimalLength(id, 10, PowerOfTen(10));
  }

  /** A message by id to nobody, or to a banned client, is answered with an Error that quotes the whole id. */
  lemma RefusalByIdSends(s: Server, e: Event, chat: ChatPayload, relay: Relay, g: Fd)
    requires Valid(s) && Enabled(s, e) && IsRelay(s, e, chat, relay) && chat.recipientTag == RECIPIENT_BY_ID
    requires g in s.reg.clients && |chat.recipientData| == 4
    requires var id := ReadU32(chat.recipientData); id in s.reg.fdById ==> id in s.banned
    ensures var id := ReadU32(chat.recipientData);
            Appends(s, e, g, if g == e.fd then [Error(Refusal(id in s.reg.fdById, Decimal(id)))] else [])
  {
    var id := ReadU32(chat.recipientData);
    var text := Refusal(id in s.reg.fdById, Decimal(id));
    RefusedIdFits(id in s.reg.fdById, id);
    assert Step(s, e) == Relayed(s, e.fd, chat, relay) == ErrorReplied(s, e.fd, text);
    hide Step;
    PushSends(s, e, e.fd, Error(text), g);
  }

  lemma RelayStep(s: Server, e: Event, chat: ChatPayload, relay: Relay)
    requires Valid(s) && IsRelay(s, e, chat, relay)
    ensures e.Data? && e.fd in s.reg.clients && !Muted(s, e.fd) && Step(s, e) == Relayed(s, e.fd, chat, relay)
  {
    hide Valid, Relayed;
  }

  lemma RefusalLength(connected: bool, recipient: seq<Byte>)
    ensures |Refusal(connected, recipient)| == |recipient| + if connected then 18 else 19
  {
  }

  lemma ErrorIsSent(s: Server, fd: Fd, text: seq<Byte>)
    ensures ErrorReplied(s, fd, text) == Sent(s, fd, Error(if |text| <= MAX_U16_COUNT then text else Text("String too long")))
  {
  }

  lemma NicknameRefused(s: Server, fd: Fd, chat: ChatPayload, relay: Relay, nickname: seq<Byte>)
    requires fd in s.reg.clients && !Muted(s, fd) && chat.recipientTag == RECIPIENT_BY_NICKNAME
    requires DecodeString(chat.recipientData) == Ok(nickname)
    requires nickname in s.reg.idByNickname ==> s.reg.idByNickname[nickname] in s.banned
    ensures Relayed(s, fd, chat, relay) == ErrorReplied(s, fd, Refusal(nickname in s.reg.idByNickname, nickname))
  {
    hide ErrorReplied;
  }

  /**
   * One by nickname is answered with an Error that quotes the whole nickname if and only if that has at
   * most 65516 bytes, or 65517 for a banned client; otherwise with "String too long".
   */
  lemma RefusalByNicknameSends(s: Server, e: Event, chat: ChatPayload, relay: Relay, g: Fd, nickname: seq<Byte>)
    requires Valid(s) && Enabled(s, e) && IsRelay(s, e, chat, relay) && chat.recipientTag == RECIPIENT_BY_NICKNAME
    requires g in s.reg.clients && DecodeString(chat.recipientData) == Ok(nickname)
    requires nickname in s.reg.idByNickname ==> s.reg.idByNickname[nickname] in s.banned
    ensures var connected := nickname in s.reg.idByNickname;
            var text := if |nickname| <= (if connected then 65517 else 65516) then Refusal(connected, nickname)
                        else Text("String too long");
            Appends(s, e, g, if g == e.fd then [Error(text)] else [])
  {
    hide Valid, Step, IsRelay, ErrorReplied, Enabled, Refusal;
    var connected := nickname in s.reg.idByNickname;
    var text := Refusal(connected, nickname);
    RefusalLength(connected, nickname);
    RelayStep(s, e, chat, relay);
    NicknameRefused(s, e.fd, chat, relay, nickname);
    ErrorIsSent(s, e.fd, text);
    PushSends(s, e, e.fd, Error(if |text| <= MAX_U16_COUNT then text else Text("String too long")), g);
  }

  // ----- the other messages -----

  lemma ListUsersSends(s: Server, e: Event, g: Fd)
    requires Valid(s) && Enabled(s, e) && Dispatches(s, e) && e.incoming == Received(ListUsers) && g in s.reg.clients
    ensures OnlySends(s, Step(s, e))
    ensures if |SortedUsers(s.reg.Names())| <= MAX_U16_COUNT then
              Appends(s, e, g, if g == e.fd then [UsersList(SortedUsers(s.reg.Names()))] else [])
            else RepliesError(s, e, g)
  {
    hide SortedUsers;
    assert Step(s, e) == UsersListed(s, e.fd);
    var users := SortedUsers(s.reg.Names());
    if |users| > MAX_U16_COUNT {
      ErrorSends(s, e, Text("Too many users"), g);
    } else {
      PushSends(s, e, e.fd, UsersList(users), g);
    }
  }

  /** A malformed message or one that only servers send is answered with one Error. */
  lemma OtherSends(s: Server, e: Event, g: Fd)
    requires Valid(s) && Enabled(s, e) && Dispatches(s, e) && g in s.reg.clients
    requires e.incoming.Received? ==>
               !e.incoming.message.Register? && e.incoming.message != ListUsers && RelayOf(e.incoming.message) == None
    ensures OnlySends(s, Step(s, e))
    ensures RepliesError(s, e, g)
  {
    hide ErrorReplied, Valid, Relayed, Registered, UsersListed, Removed;
    ErrorSends(s, e, if e.incoming.Malformed? then e.incoming.what else Text("Unsupported message type"), g);
  }

  // ----- one table for all steps -----

  /** The step disconnects the client on e.fd. */
  ghost predicate Removes(s: Server, e: Event) {
    || (e.Hangup? && e.fd in s.reg.clients)
    || (e.Data? && e.fd in s.reg.clients && (s.reg.clients[e.fd].id in s.banned || e.incoming.Closed?))
  }

  /** The step gives the client on e.fd a nickname. */
  ghost predicate GivesNickname(s: Server, e: Event) {
    && Dispatches(s, e) && e.incoming.Received? && e.incoming.message.Register?
    && MayTakeNickname(s.reg, e.fd, e.incoming.message.nickname)
  }

  /** Where a message handed to the connection on g can come from. */
  ghost predicate Origin(s: Server, e: Event, s': Server, g: Fd, m: AppMessage)
    requires s.reg.ValidIds()
  {
    match m
    case AssignId(id, createRoom) =>
      e == Accept(g) && g in s'.reg.clients && id == s'.reg.clients[g].id && createRoom == (s.reg.clients == map[])
    case UserJoined(id, nickname) =>
      && g in s.reg.clients && !Muted(s, g)
      && (|| (e.Accept? && e.fd != g && e.fd in s'.reg.clients && id == s'.reg.clients[e.fd].id && nickname == [])
          || (GivesNickname(s, e) && e.fd != g && id == s.reg.clients[e.fd].id && nickname == e.incoming.message.nickname))
    case UserLeft(id, nickname) =>
      && g in s.reg.clients && !Muted(s, g)
      && Removes(s, e) && e.fd != g && id == s.reg.clients[e.fd].id && nickname == s.reg.clients[e.fd].nickname
    case BannedIds(ids) =>
      && e.Ban? && (forall x :: x in ids ==> x !in s.banned && x in s'.banned)
      && g in s.reg.clients && s.reg.clients[g].id !in s'.banned
    case UsersList(users) => Dispatches(s, e) && e.fd == g && s' .reg == s.reg && users == SortedUsers(s.reg.Names())
    case Error(_) => Dispatches(s, e) && e.fd == g
    case Deliver(fromId, text) => RelayedFrom(s, e, g, ChatRelay, fromId, text)
    case PeerKey(fromId, text) => RelayedFrom(s, e, g, KeyRelay, fromId, text)
    case RoomKey(fromId, text) => RelayedFrom(s, e, g, RoomRelay, fromId, text)
    case _ => false
  }

  ghost predicate RelayedFrom(s: Server, e: Event, g: Fd, relay: Relay, fromId: nat, text: seq<Byte>) {
    && Dispatches(s, e) && e.incoming.Received? && RelayOf(e.incoming.message) == Some(relay)
    && fromId == s.reg.clients[e.fd].id && text == e.incoming.message.chat.text
    && g in s.reg.clients && s.reg.clients[g].id !in s.banned
  }

  /** The step hands the connection on g nothing, or one message that has an origin. */
  ghost predicate HandsOne(s: Server, e: Event, s': Server, g: Fd)
    requires s.reg.ValidIds()
  {
    Hands(s, e, s', g, []) || exists m :: Hands(s, e, s', g, [m]) && Origin(s, e, s', g, m)
  }

  lemma OneMessage(s: Server, e: Event, s': Server, g: Fd, m: AppMessage)
    requires s.reg.ValidIds() && Hands(s, e, s', g, [m]) && Origin(s, e, s', g, m)
    ensures HandsOne(s, e, s', g)
  {
  }

  lemma ErrorOrigin(s: Server, e: Event, s': Server, g: Fd)
    requires Valid(s) && Dispatches(s, e) && s' == Step(s, e) && RepliesError(s, e, g)
    ensures HandsOne(s, e, s', g)
  {
    var text :| |text| <= MAX_U16_COUNT && Appends(s, e, g, if g == e.fd then [Error(text)] else []);
    if g == e.fd {
      OneMessage(s, e, s', g, Error(text));
    }
  }

  lemma RelayOrigin(s: Server, e: Event, g: Fd, chat: ChatPayload, relay: Relay)
    requires Valid(s) && Enabled(s, e) && IsRelay(s, e, chat, relay) && g in s.reg.clients
    ensures HandsOne(s, e, Step(s, e), g)
    ensures OnlySends(s, Step(s, e))
  {
    var s' := Step(s, e);
    var m := Wrapped(relay, s.reg.clients[e.fd].id, chat.text);
    if chat.recipientTag == RECIPIENT_BROADCAST {
      BroadcastSends(s, e, chat, relay, g);
      if g != e.fd && s.reg.clients[g].id !in s.banned {
        OneMessage(s, e, s', g, m);
      }
    } else {
      UnicastSends(s, e, chat, relay, g);
      if id: nat :| Addressed(s, chat, id) && id !in s.banned {
        if s.reg.clients[g].id == id {
          OneMessage(s, e, s', g, m);
        }
      } else {
        ErrorOrigin(s, e, s', g);
      }
    }
  }

  lemma DispatchOrigin(s: Server, e: Event, g: Fd)
    requires Valid(s) && Enabled(s, e) && Dispatches(s, e) && g in s.reg.clients
    ensures HandsOne(s, e, Step(s, e), g)
    ensures !GivesNickname(s, e) ==> OnlySends(s, Step(s, e))
  {
    var s' := Step(s, e);
    if e.incoming.Received? && RelayOf(e.incoming.message).Some? {
      RelayOrigin(s, e, g, e.incoming.message.chat, RelayOf(e.incoming.message).value);
    } else if e.incoming.Received? && e.incoming.message.Register? {
      RegisterSends(s, e, g);
      if !GivesNickname(s, e) {
        ErrorOrigin(s, e, s', g);
      } else if g != e.fd && !Muted(s, g) {
        OneMessage(s, e, s', g, UserJoined(s.reg.clients[e.fd].id, e.incoming.message.nickname));
      }
    } else if e.incoming == Received(ListUsers) {
      ListUsersSends(s, e, g);
      var users := SortedUsers(s.reg.Names());
      if |users| > MAX_U16_COUNT {
        ErrorOrigin(s, e, s', g);
      } else if g == e.fd {
        OneMessage(s, e, s', g, UsersList(users));
      }
    } else {
      OtherSends(s, e, g);
      ErrorOrigin(s, e, s', g);
    }
  }

  /**
   * Everything the properties of whole runs need to know about one step, without naming the code that
   * performs it: how the registry changes, that every other connection that has not been shut down is
   * told of every change, that bans only grow, and that each connection is handed at most one message,
   * with its origin.
   */
  ghost predicate Effect(s: Server, e: Event, s': Server)
    requires s.reg.ValidIds() && s'.reg.ValidIds()
  {
    && s.banned <= s'.banned
    && (e.Ban? || s'.banned == s.banned)
    && (if e.Accept? then AcceptEffect(s, e.fd, s')
        else if Removes(s, e) then RemoveEffect(s, e, s')
        else if GivesNickname(s, e) then NicknameEffect(s, e, s')
        else s'.reg == s.reg)
    && (forall g :: g in s'.reg.clients ==> HandsOne(s, e, s', g))
  }

  ghost predicate AcceptEffect(s: Server, fd: Fd, s': Server)
    requires s.reg.ValidIds() && s'.reg.ValidIds()
  {
    && fd !in s.reg.clients && s'.reg.clients.Keys == s.reg.clients.Keys + {fd}
    && (forall g :: g in s.reg.clients ==> s'.reg.clients[g] == s.reg.clients[g])
    && var id := s'.reg.clients[fd].id;
       && id !in s.reg.fdById && id !in s.banned && id >= 1
       && !s'.reg.clients[fd].registered
       && s'.reg.Names() == s.reg.Names()[id := []]
       && Hands(s, Accept(fd), s', fd, [AssignId(id, s.reg.clients == map[])])
       && (forall g :: g in s.reg.clients ==> Hands(s, Accept(fd), s', g, if Muted(s, g) then [] else [UserJoined(id, [])]))
  }

  ghost predicate RemoveEffect(s: Server, e: Event, s': Server)
    requires s.reg.ValidIds() && s'.reg.ValidIds() && Removes(s, e)
  {
    var gone := s.reg.clients[e.fd];
    && s'.reg.clients == s.reg.clients - {e.fd}
    && s'.reg.Names() == s.reg.Names() - {gone.id}
    && (forall g :: g in s'.reg.clients ==> Hands(s, e, s', g, if Muted(s, g) then [] else [UserLeft(gone.id, gone.nickname)]))
  }

  ghost predicate NicknameEffect(s: Server, e: Event, s': Server)
    requires s.reg.ValidIds() && s'.reg.ValidIds() && GivesNickname(s, e)
  {
    var nickname := e.incoming.message.nickname;
    var named := s.reg.clients[e.fd];
    && s'.reg.clients == s.reg.clients[e.fd := named.(nickname := nickname, registered := true)]
    && s'.reg.Names() == s.reg.Names()[named.id := nickname]
    && (forall g :: g in s.reg.clients ==>
          Hands(s, e, s', g, if g == e.fd || Muted(s, g) then [] else [UserJoined(named.id, nickname)]))
  }

  lemma AcceptHandsOne(s: Server, fd: Fd, s': Server)
    requires s.reg.ValidIds() && s'.reg.ValidIds() && AcceptEffect(s, fd, s')
    ensures forall g :: g in s'.reg.clients ==> HandsOne(s, Accept(fd), s', g)
  {
    forall g | g in s'.reg.clients
      ensures HandsOne(s, Accept(fd), s', g)
    {
      var id := s'.reg.clients[fd].id;
      if g == fd || !Muted(s, g) {
        OneMessage(s, Accept(fd), s', g, if g == fd then AssignId(id, s.reg.clients == map[]) else UserJoined(id, []));
      }
    }
  }

  lemma AcceptEffectFrom(s: Server, fd: Fd, s': Server, id: nat)
    requires s.reg.Valid() && s'.reg == s.reg.Add(fd, id) && s'.reg.ValidIds()
    requires fd !in s.reg.clients && id !in s.reg.fdById && id !in s.banned && id >= 1
    requires Hands(s, Accept(fd), s', fd, [AssignId(id, s.reg.clients == map[])])
    requires forall g :: g in s.reg.clients ==> Hands(s, Accept(fd), s', g, if Muted(s, g) then [] else [UserJoined(id, [])])
    ensures AcceptEffect(s, fd, s')
  {
    AddKeepsValid(s.reg, fd, id);
  }

  lemma AcceptedHasEffect(s: Server, fd: Fd, s': Server)
    requires Valid(s) && Enabled(s, Accept(fd)) && s' == Step(s, Accept(fd)) && s'.reg.ValidIds()
    ensures AcceptEffect(s, fd, s')
  {
    var id := AllocatedId(s);
    AllocatesSmallest(s);
    assert s'.reg == s.reg.Add(fd, id);
    AcceptSends(s, fd, fd);
    forall g | g in s.reg.clients
      ensures Hands(s, Accept(fd), s', g, if Muted(s, g) then [] else [UserJoined(id, [])])
    {
      AcceptSends(s, fd, g);
    }
    AcceptEffectFrom(s, fd, s', id);
  }

  lemma AcceptHasEffect(s: Server, fd: Fd)
    requires Valid(s) && Enabled(s, Accept(fd))
    ensures Valid(Step(s, Accept(fd))) && Effect(s, Accept(fd), Step(s, Accept(fd)))
  {
    StepKeepsValid(s, Accept(fd));
    AcceptedHasEffect(s, fd, Step(s, Accept(fd)));
    AcceptHandsOne(s, fd, Step(s, Accept(fd)));
  }

  lemma RemoveHandsOne(s: Server, e: Event, s': Server)
    requires s.reg.ValidIds() && s'.reg.ValidIds() && Removes(s, e) && RemoveEffect(s, e, s')
    ensures forall g :: g in s'.reg.clients ==> HandsOne(s, e, s', g)
  {
    forall g | g in s'.reg.clients
      ensures HandsOne(s, e, s', g)
    {
      if !Muted(s, g) {
        OneMessage(s, e, s', g, UserLeft(s.reg.clients[e.fd].id, s.reg.clients[e.fd].nickname));
      }
    }
  }

  lemma RemovedHasEffect(s: Server, e: Event, s': Server)
    requires Valid(s) && Enabled(s, e) && Removes(s, e) && s' == Step(s, e) && s'.reg.ValidIds()
    ensures RemoveEffect(s, e, s')
  {
    assert s' == Removed(s, e.fd);
    RemoveKeepsValid(s.reg, e.fd);
    forall g | g in s'.reg.clients
      ensures Hands(s, e, s', g, if Muted(s, g) then [] else [UserLeft(s.reg.clients[e.fd].id, s.reg.clients[e.fd].nickname)])
    {
      RemoveSends(s, e, e.fd, g);
    }
  }

  lemma RemoveHasEffect(s: Server, e: Event)
    requires Valid(s) && Enabled(s, e) && Removes(s, e)
    ensures Valid(Step(s, e)) && Effect(s, e, Step(s, e))
  {
    StepKeepsValid(s, e);
    RemovedHasEffect(s, e, Step(s, e));
    RemoveHandsOne(s, e, Step(s, e));
  }

  lemma DispatchHasEffect(s: Server, e: Event)
    requires Valid(s) && Enabled(s, e) && Dispatches(s, e)
    ensures Valid(Step(s, e)) && Effect(s, e, Step(s, e))
  {
    var s' := Step(s, e);
    StepKeepsValid(s, e);
    if GivesNickname(s, e) {
      assert s' == Registered(s, e.fd, e.incoming.message.nickname);
      SetNicknameIds(s.reg, e.fd, e.incoming.message.nickname);
      assert s'.reg.clients.Keys == s.reg.clients.Keys;
      forall g | g in s.reg.clients
        ensures Hands(s, e, s', g, if g == e.fd || Muted(s, g) then []
                                   else [UserJoined(s.reg.clients[e.fd].id, e.incoming.message.nickname)])
      {
        RegisterSends(s, e, g);
      }
      assert NicknameEffect(s, e, s');
    } else {
      DispatchOrigin(s, e, e.fd);
    }
    forall g | g in s'.reg.clients
      ensures HandsOne(s, e, s', g)
    {
      DispatchOrigin(s, e, g);
    }
  }

  lemma BanHasEffect(s: Server, ids: seq<nat>)
    requires Valid(s) && Enabled(s, Ban(ids))
    ensures Valid(Step(s, Ban(ids))) && Effect(s, Ban(ids), Step(s, Ban(ids)))
  {
    var s' := Step(s, Ban(ids));
    StepKeepsValid(s, Ban(ids));
    forall g | g in s'.reg.clients
      ensures HandsOne(s, Ban(ids), s', g)
    {
      BanSends(s, ids, g);
      var newIds := NewlyBanned(ids, s.banned);
      if newIds != [] && s.reg.clients[g].id !in s'.banned {
        OneMessage(s, Ban(ids), s', g, BannedIds(newIds));
      }
    }
  }

  lemma StepHasEffect(s: Server, e: Event)
    requires Valid(s) && Enabled(s, e)
    ensures Valid(Step(s, e)) && Effect(s, e, Step(s, e))
  {
    if e.Accept? {
      AcceptHasEffect(s, e.fd);
    } else if e.Ban? {
      BanHasEffect(s, e.ids);
    } else if Removes(s, e) {
      RemoveHasEffect(s, e);
    } else {
      DispatchHasEffect(s, e);
    }
  }
}
