/** A text from one user's keyboard to another's screen: sealing, encoding, framing, relaying, and all of it back. */
module EndToEnd {
  import opened Bytes
  import opened Messages
  import opened Cipher
  import opened Client
  import opened Registry
  import opened Server
  import opened ServerSends
  import opened Codec
  import opened Modbus
  import CVM = ClientViewModel

  /** What a message becomes on the wire, unless encoding it throws. */
  function OnWire(m: AppMessage): Option<seq<Byte>> {
    match Encode(m)
    case Thrown(_) => None
    case Ok(payload) => Some(EncodeFrame(Frame(0, 0, Pdu(m, payload))))
  }

  /** What the receiver's read_frame and decode_app_message make of the front of a stream. */
  function FromWire(stream: seq<Byte>): Option<AppMessage> {
    match NextFrame(stream)
    case None => None
    case Some((frame, _)) => match Decode(frame.pdu) case Thrown(_) => None case Ok(m) => Some(m)
  }

  /** The message gets across unchanged, whatever is sent after it. */
  ghost predicate Crosses(m: AppMessage) {
    OnWire(m).Some? && forall rest :: FromWire(OnWire(m).value + rest) == Some(m)
  }

  /** A frame too long for its length field is cut: whatever follows it, what is read is shorter than what was sent. */
  lemma CutFrame(pdu: seq<Byte>, rest: seq<Byte>)
    requires |pdu| > MAX_PDU_SIZE
    ensures var next := NextFrame(EncodeFrame(Frame(0, 0, pdu)) + rest);
            next.Some? ==> |next.value.0.pdu| < |pdu|
  {
    EncodedHeader(Frame(0, 0, pdu), rest);
  }

  /**
   * A well-formed message crosses exactly if its PDU fits the sixteen-bit length of the frame; otherwise
   * the receiver takes something else for it, whatever is sent after it.
   */
  lemma CrossesIff(m: AppMessage)
    requires WellFormed(m)
    ensures Encode(m).Ok?
    ensures Crosses(m) <==> |Pdu(m, Encode(m).value)| <= MAX_PDU_SIZE
    ensures !Crosses(m) ==> forall rest :: FromWire(OnWire(m).value + rest) != Some(m)
  {
    hide NextFrame, EncodeFrame, Decode, Encode, WellFormed;
    WellFormedEncodes(m);
    WellFormedFits(m);
    RoundTripIff(m);
    var pdu := Pdu(m, Encode(m).value);
    if |pdu| <= MAX_PDU_SIZE {
      forall rest
        ensures FromWire(OnWire(m).value + rest) == Some(m)
      {
        NextOfEncoded(Frame(0, 0, pdu), rest);
      }
    } else {
      ShorterIsAnother(m, pdu);
      forall rest
        ensures FromWire(OnWire(m).value + rest) != Some(m)
      {
        CutFrame(pdu, rest);
      }
      assert FromWire(OnWire(m).value + []) != Some(m);
    }
  }

  // ----- the bounds, type by type -----

  /** The bytes of a list of users. */
  function UsersSize(users: seq<UserInfo>): nat {
    if users == [] then 0 else UserSize(users[0]) + UsersSize(users[1..])
  }

  /** The longest each part of a message may be for the message to get across. */
  predicate Fits(m: AppMessage) {
    match m
    case Register(nickname) => |nickname| <= 65530
    case Error(text) => |text| <= 65530
    case UserJoined(_, nickname) => |nickname| <= 65526
    case UserLeft(_, nickname) => |nickname| <= 65526
    case Deliver(_, text) => |text| <= 65526
    case PeerKey(_, text) => |text| <= 65526
    case RoomKey(_, text) => |text| <= 65526
    case Chat(chat) => |chat.recipientData| + |chat.text| <= 65525
    case KeyOffer(chat) => |chat.recipientData| + |chat.text| <= 65525
    case RoomKeyOffer(chat) => |chat.recipientData| + |chat.text| <= 65525
    case UsersList(users) => UsersSize(users) <= 65530
    case BannedIds(ids) => |ids| <= 16382
    case AssignId(_, _) => true
    case ListUsers => true
  }

  lemma {:induction false} EncodedUsersSize(users: seq<UserInfo>)
    requires EncodeUsers(users).Ok?
    ensures |EncodeUsers(users).value| == UsersSize(users)
  {
    if users != [] {
      EncodedUsersSize(users[1..]);
    }
  }

  /** A well-formed message gets across a connection if and only if its parts are within these bounds. */
  lemma CrossesIffFits(m: AppMessage)
    requires WellFormed(m)
    ensures OnWire(m).Some? && (Crosses(m) <==> Fits(m))
    ensures !Fits(m) ==> forall rest :: FromWire(OnWire(m).value + rest) != Some(m)
  {
    CrossesIff(m);
    EncodedSize(m);
    hide Crosses, Encode, WellFormed;
  }

  lemma EncodedSize(m: AppMessage)
    requires Encode(m).Ok?
    ensures |Encode(m).value| + 2 <= MAX_PDU_SIZE <==> Fits(m)
  {
    if m.UsersList? {
      EncodedUsersSize(m.users);
    }
  }

  /** No PDU shorter than a long message's own decodes to that message. */
  lemma ShorterIsAnother(m: AppMessage, pdu: seq<Byte>)
    requires WellFormed(m) && Encode(m).Ok? && pdu == Pdu(m, Encode(m).value) && |pdu| > MAX_PDU_SIZE
    ensures forall shorter :: |shorter| < |pdu| ==> Decode(shorter) != Ok(m)
  {
    hide Encode, Decode, WellFormed;
    AssignIdIsShort(m);
    forall shorter | |shorter| < |pdu|
      ensures Decode(shorter) != Ok(m)
    {
      DecodeIff(shorter, m);
    }
  }

  lemma AssignIdIsShort(m: AppMessage)
    ensures m.AssignId? ==> Encode(m).Ok? && |Pdu(m, Encode(m).value)| == 7
  {
  }

  // ----- sealed texts -----

  /** Client a holds its own identity and b's public key. */
  ghost predicate Knows(cipher: Cipher, a: Client, b: Client) {
    && a.id < U32_LIMIT && b.id < U32_LIMIT
    && |a.store.secret| == KEY_SIZE && |b.store.secret| == KEY_SIZE
    && b.id in a.store.peers && a.store.peers[b.id] == cipher.publicOf(b.store.secret)
  }

  const MAX_TEXT_BY_ID: nat := 65481
  const MAX_TEXT_TO_ALL: nat := 65485

  /** The sealed chat crosses to the server exactly if the text is at most 65481 bytes long. */
  lemma SealedChatCrossesIff(cipher: Cipher, a: Client, b: Client, text: seq<Byte>, nonce: seq<Byte>)
    requires Lawful(cipher) && Knows(cipher, a, b)
    ensures var m := CVM.SealedChat(cipher, a, b.id, text, nonce);
            m.Some? && (Crosses(m.value) <==> |text| <= MAX_TEXT_BY_ID)
  {
    var body := Seal(cipher, a.store.secret, a.store.peers[b.id], nonce, text);
    var m := Chat(ById(a.id, b.id, body));
    if |body| <= MAX_U16_COUNT {
      CrossesIff(m);
      assert |Encode(m).value| == 11 + |body|;
    } else {
      assert Encode(m).Thrown?;
    }
  }

  lemma DeliverCrosses(fromId: nat, body: seq<Byte>)
    requires fromId < U32_LIMIT && |body| <= MAX_TEXT_TO_ALL + SEAL_OVERHEAD
    ensures Crosses(Deliver(fromId, body))
  {
    CrossesIff(Deliver(fromId, body));
    assert |Encode(Deliver(fromId, body)).value| == 6 + |body|;
  }

  lemma Unsealed(cipher: Cipher, a: Client, b: Client, text: seq<Byte>, nonce: seq<Byte>)
    requires Lawful(cipher) && Knows(cipher, a, b) && Knows(cipher, b, a)
    ensures Decrypted(cipher, b, a.id, Seal(cipher, a.store.secret, a.store.peers[b.id], nonce, text)) == Some(text)
  {
    OpensSealed(cipher, a.store.secret, b.store.secret, nonce, text);
  }

  /**
   * If two connected clients that are not banned hold each other's keys, a text of at most 65481 bytes
   * that one sends the other by id is shown there unchanged and with the sender's id, and nobody else is
   * sent anything; a longer text does not even reach the server.
   */
  lemma TextArrives(cipher: Cipher, s: Server, a: Client, b: Client, fdA: Fd, fdB: Fd, text: seq<Byte>, nonce: seq<Byte>, g: Fd)
    requires Lawful(cipher) && Knows(cipher, a, b) && Knows(cipher, b, a) && |text| <= MAX_TEXT_BY_ID
    requires Valid(s) && fdA in s.reg.clients && fdB in s.reg.clients && g in s.reg.clients
    requires s.reg.clients[fdA].id == a.id && s.reg.clients[fdB].id == b.id && a.id !in s.banned && b.id !in s.banned
    ensures var m := CVM.SealedChat(cipher, a, b.id, text, nonce).value;
            var delivered := Deliver(a.id, m.chat.text);
            && Crosses(m) && Enabled(s, Data(fdA, Received(m)))
            && Appends(s, Data(fdA, Received(m)), g, if g == fdB then [delivered] else [])
            && Crosses(delivered)
            && Decrypted(cipher, b, a.id, m.chat.text) == Some(text)
  {
    hide Step, Valid, Crosses, Enabled, Addressed, IsRelay, Decrypted;
    SealedChatCrossesIff(cipher, a, b, text, nonce);
    var m := CVM.SealedChat(cipher, a, b.id, text, nonce).value;
    var e := Data(fdA, Received(m));
    IsAddressed(s, a.id, b.id, fdA, fdB, m.chat.text);
    UnicastSends(s, e, m.chat, ChatRelay, g);
    SameConnection(s, fdB, g);
    DeliverCrosses(a.id, m.chat.text);
    Unsealed(cipher, a, b, text, nonce);
  }

  /** The server takes the chat for a relay to the client it names. */
  lemma IsAddressed(s: Server, from: nat, to: nat, fdA: Fd, fdB: Fd, body: seq<Byte>)
    requires Valid(s) && fdA in s.reg.clients && fdB in s.reg.clients && |body| <= MAX_U16_COUNT && from < U32_LIMIT && to < U32_LIMIT
    requires s.reg.clients[fdA].id == from && s.reg.clients[fdB].id == to && from !in s.banned
    ensures s.reg.ValidIds()
    ensures var chat := ById(from, to, body);
            var e := Data(fdA, Received(Chat(chat)));
            Enabled(s, e) && IsRelay(s, e, chat, ChatRelay) && Addressed(s, chat, to)
  {
  }

  lemma SameConnection(s: Server, f: Fd, g: Fd)
    requires Valid(s) && f in s.reg.clients && g in s.reg.clients
    ensures s.reg.clients[f].id == s.reg.clients[g].id <==> f == g
  {
  }

  // ----- to everyone -----

  /** Both ends hold the room key, whether or not they hold each other's keys. */
  ghost predicate ShareRoom(a: Client, b: Client) {
    && a.id < U32_LIMIT && a.store.room.Some? && b.store.room == a.store.room
    && |a.store.room.value| == KEY_SIZE && |b.store.secret| == KEY_SIZE
  }

  /** The peer key, tried first, fails on a text sealed with the room key, or opens it to the same text. */
  lemma RoomUnsealed(cipher: Cipher, a: Client, b: Client, text: seq<Byte>, nonce: seq<Byte>)
    requires Lawful(cipher) && Authentic(cipher) && ShareRoom(a, b)
    ensures Decrypted(cipher, b, a.id, cipher.lock(a.store.room.value, nonce, text)) == Some(text)
  {
    var room := a.store.room.value;
    assert cipher.unlock(room, cipher.lock(room, nonce, text)) == Some(text);
    if a.id in b.store.peers {
      var shared := cipher.shared(b.store.secret, b.store.peers[a.id]);
      assert cipher.unlock(shared, cipher.lock(room, nonce, text)).Some? ==> shared == room;
    }
  }

  /** A broadcast crosses to the server exactly if the text is at most 65485 bytes long. */
  lemma SealedBroadcastCrossesIff(cipher: Cipher, a: Client, text: seq<Byte>, nonce: seq<Byte>)
    requires Lawful(cipher) && a.id < U32_LIMIT && a.store.room.Some?
    ensures var m := CVM.SealedBroadcast(cipher, a, text, nonce);
            m.Some? && (Crosses(m.value) <==> |text| <= MAX_TEXT_TO_ALL)
  {
    var body := cipher.lock(a.store.room.value, nonce, text);
    var m := Chat(ChatPayload(a.id, RECIPIENT_BROADCAST, [], body));
    if |body| <= MAX_U16_COUNT {
      CrossesIff(m);
      assert |Encode(m).value| == 7 + |body|;
    } else {
      assert Encode(m).Thrown?;
    }
  }

  lemma IsBroadcast(s: Server, from: nat, fdA: Fd, body: seq<Byte>)
    requires Valid(s) && fdA in s.reg.clients && |body| <= MAX_U16_COUNT && from < U32_LIMIT
    requires s.reg.clients[fdA].id == from && from !in s.banned
    ensures var chat := ChatPayload(from, RECIPIENT_BROADCAST, [], body);
            var e := Data(fdA, Received(Chat(chat)));
            Enabled(s, e) && IsRelay(s, e, chat, ChatRelay)
  {
  }

  /**
   * A text of at most 65485 bytes sent to all is handed once to every other client that is not banned,
   * and each of them that holds the room key shows it unchanged with the sender's id.
   */
  lemma BroadcastArrives(cipher: Cipher, s: Server, a: Client, b: Client, fdA: Fd, text: seq<Byte>, nonce: seq<Byte>, g: Fd)
    requires Lawful(cipher) && Authentic(cipher) && ShareRoom(a, b) && |text| <= MAX_TEXT_TO_ALL
    requires Valid(s) && fdA in s.reg.clients && g in s.reg.clients && s.reg.clients[fdA].id == a.id && a.id !in s.banned
    ensures var m := CVM.SealedBroadcast(cipher, a, text, nonce).value;
            var delivered := Deliver(a.id, m.chat.text);
            && Crosses(m) && Enabled(s, Data(fdA, Received(m)))
            && Appends(s, Data(fdA, Received(m)), g, if g != fdA && s.reg.clients[g].id !in s.banned then [delivered] else [])
            && Crosses(delivered)
            && Decrypted(cipher, b, a.id, m.chat.text) == Some(text)
  {
    hide Step, Valid, Crosses, Enabled, IsRelay, Decrypted;
    SealedBroadcastCrossesIff(cipher, a, text, nonce);
    var m := CVM.SealedBroadcast(cipher, a, text, nonce).value;
    var e := Data(fdA, Received(m));
    IsBroadcast(s, a.id, fdA, m.chat.text);
    BroadcastSends(s, e, m.chat, ChatRelay, g);
    DeliverCrosses(a.id, m.chat.text);
    RoomUnsealed(cipher, a, b, text, nonce);
  }
}
