/** common/Protocol.cpp: application messages as payload bytes and back. */
module Codec {
  import opened Bytes
  import opened Messages

  const APP_FUNCTION_CODE: Byte := 0x41

  function TypeOf(m: AppMessage): Byte {
    match m
    case Register(_) => 0x01
    case AssignId(_, _) => 0x02
    case Chat(_) => 0x03
    case Deliver(_, _) => 0x04
    case Error(_) => 0x05
    case UserJoined(_, _) => 0x06
    case UserLeft(_, _) => 0x07
    case ListUsers => 0x08
    case UsersList(_) => 0x09
    case KeyOffer(_) => 0x0A
    case RoomKeyOffer(_) => 0x0B
    case BannedIds(_) => 0x0C
    case PeerKey(_, _) => 0x0D
    case RoomKey(_, _) => 0x0E
  }

  // ----- encoding -----

  /** bytes followed by an encoded string, unless the string is too long. */
  function Followed(bytes: seq<Byte>, text: seq<Byte>): Result<seq<Byte>> {
    match EncodeString(text)
    case Thrown(what) => Thrown(what)
    case Ok(encoded) => Ok(bytes + encoded)
  }

  function EncodeUser(user: UserInfo): Result<seq<Byte>> {
    Followed(WriteU32(user.id), user.nickname)
  }

  function EncodeUsers(users: seq<UserInfo>): Result<seq<Byte>> {
    if users == [] then Ok([])
    else match EncodeUser(users[0])
         case Thrown(what) => Thrown(what)
         case Ok(first) =>
           match EncodeUsers(users[1..])
           case Thrown(what) => Thrown(what)
           case Ok(rest) => Ok(first + rest)
  }

  function EncodeIds(ids: seq<nat>): (r: seq<Byte>)
    ensures |r| == 4 * |ids|
  {
    if ids == [] then [] else WriteU32(ids[0]) + EncodeIds(ids[1..])
  }

  /** The payload the encode_* function of the message's type returns. */
  function Encode(m: AppMessage): Result<seq<Byte>> {
    match m
    case Register(nickname) => EncodeString(nickname)
    case AssignId(id, createRoom) => Ok(WriteU32(id) + [if createRoom then 1 else 0])
    case Chat(chat) => EncodeChat(chat)
    case KeyOffer(chat) => EncodeChat(chat)
    case RoomKeyOffer(chat) => EncodeChat(chat)
    case Deliver(fromId, text) => Followed(WriteU32(fromId), text)
    case PeerKey(fromId, text) => Followed(WriteU32(fromId), text)
    case RoomKey(fromId, text) => Followed(WriteU32(fromId), text)
    case Error(text) => EncodeString(text)
    case UserJoined(id, nickname) => EncodeUser(UserInfo(id, nickname))
    case UserLeft(id, nickname) => EncodeUser(UserInfo(id, nickname))
    case ListUsers => Ok([])
    case UsersList(users) =>
      if |users| > MAX_U16_COUNT then Thrown(Text("Too many users"))
      else (match EncodeUsers(users)
            case Thrown(what) => Thrown(what)
            case Ok(bytes) => Ok(WriteU16(|users|) + bytes))
    case BannedIds(ids) =>
      if |ids| > MAX_U16_COUNT then Thrown(Text("Too many banned ids"))
      else Ok(WriteU16(|ids|) + EncodeIds(ids))
  }

  function EncodeChat(chat: ChatPayload): Result<seq<Byte>> {
    Followed(WriteU32(chat.fromId) + [chat.recipientTag] + chat.recipientData, chat.text)
  }

  /** The PDU make_frame builds around a payload. */
  function Pdu(m: AppMessage, payload: seq<Byte>): seq<Byte> {
    [APP_FUNCTION_CODE, TypeOf(m)] + payload
  }

  // ----- decoding -----

  function DecodeUser(data: seq<Byte>): (r: Result<UserInfo>)
    ensures r.Ok? ==> |data| >= UserSize(r.value)
  {
    if |data| < 4 then Thrown(Text("UserInfo id too short"))
    else match DecodeString(data[4..])
         case Thrown(what) => Thrown(what)
         case Ok(nickname) => Ok(UserInfo(ReadU32(data), nickname))
  }

  function UserSize(user: UserInfo): nat {
    6 + |user.nickname|
  }

  /** count users, one after the other from the front of data. */
  function DecodeUsers(data: seq<Byte>, count: nat): (r: Result<seq<UserInfo>>)
    ensures r.Ok? ==> |r.value| == count
  {
    if count == 0 then Ok([])
    else match DecodeUser(data)
         case Thrown(what) => Thrown(what)
         case Ok(user) =>
           match DecodeUsers(data[UserSize(user)..], count - 1)
           case Thrown(what) => Thrown(what)
           case Ok(rest) => Ok([user] + rest)
  }

  function DecodeIds(data: seq<Byte>, count: nat): (ids: seq<nat>)
    requires |data| >= 4 * count
    ensures |ids| == count
  {
    if count == 0 then [] else [ReadU32(data)] + DecodeIds(data[4..], count - 1)
  }

  /** The recipient bytes of a chat, and what the text comes after. */
  function DecodeRecipient(tag: Byte, data: seq<Byte>): (r: Result<seq<Byte>>)
    ensures r.Ok? ==> |r.value| <= |data|
  {
    if tag == RECIPIENT_BY_ID then
      if |data| < 4 then Thrown(Text("Chat id recipient too short")) else Ok(data[..4])
    else if tag == RECIPIENT_BY_NICKNAME then
      match DecodeString(data)
      case Thrown(what) => Thrown(what)
      case Ok(nickname) => EncodeString(nickname)
    else if tag == RECIPIENT_BROADCAST then Ok([])
    else Thrown(Text("Unknown recipient tag"))
  }

  function DecodeChat(payload: seq<Byte>): Result<ChatPayload> {
    if |payload| < 5 then Thrown(Text("Chat payload too short"))
    else match DecodeRecipient(payload[4], payload[5..])
         case Thrown(what) => Thrown(what)
         case Ok(recipient) =>
           match DecodeString(payload[5 + |recipient|..])
           case Thrown(what) => Thrown(what)
           case Ok(text) => Ok(ChatPayload(ReadU32(payload), payload[4], recipient, text))
  }

  function DecodeDeliver(payload: seq<Byte>): Result<(nat, seq<Byte>)> {
    if |payload| < 4 then Thrown(Text("Deliver payload too short"))
    else match DecodeString(payload[4..])
         case Thrown(what) => Thrown(what)
         case Ok(text) => Ok((ReadU32(payload), text))
  }

  function Decode(pdu: seq<Byte>): Result<AppMessage> {
    if |pdu| < 2 then Thrown(Text("PDU too short"))
    else if pdu[0] != APP_FUNCTION_CODE then Thrown(Text("Unexpected function code"))
    else DecodePayload(pdu[1], pdu[2..])
  }

  function Chatted(type_: Byte, chat: ChatPayload): AppMessage {
    if type_ == 0x03 then Chat(chat) else if type_ == 0x0A then KeyOffer(chat) else RoomKeyOffer(chat)
  }

  function Delivered(type_: Byte, fromId: nat, text: seq<Byte>): AppMessage {
    if type_ == 0x04 then Deliver(fromId, text) else if type_ == 0x0D then PeerKey(fromId, text) else RoomKey(fromId, text)
  }

  function DecodePayload(type_: Byte, payload: seq<Byte>): Result<AppMessage> {
    match type_
    case 0x01 =>
      (match DecodeString(payload) case Thrown(what) => Thrown(what) case Ok(nickname) => Ok(Register(nickname)))
    case 0x02 =>
      if |payload| < 4 then Thrown(Text("AssignId payload too short"))
      else Ok(AssignId(ReadU32(payload), |payload| > 4 && payload[4] != 0))
    case 0x05 =>
      (match DecodeString(payload) case Thrown(what) => Thrown(what) case Ok(text) => Ok(Error(text)))
    case 0x06 =>
      (match DecodeUser(payload) case Thrown(what) => Thrown(what) case Ok(user) => Ok(UserJoined(user.id, user.nickname)))
    case 0x07 =>
      (match DecodeUser(payload) case Thrown(what) => Thrown(what) case Ok(user) => Ok(UserLeft(user.id, user.nickname)))
    case 0x08 => Ok(ListUsers)
    case 0x09 => DecodeUsersList(payload)
    case 0x0C => DecodeBannedIds(payload)
    case _ =>
      if type_ == 0x03 || type_ == 0x0A || type_ == 0x0B then
        match DecodeChat(payload) case Thrown(what) => Thrown(what) case Ok(chat) => Ok(Chatted(type_, chat))
      else if type_ == 0x04 || type_ == 0x0D || type_ == 0x0E then
        match DecodeDeliver(payload) case Thrown(what) => Thrown(what) case Ok(d) => Ok(Delivered(type_, d.0, d.1))
      else Thrown(Text("Unknown message type"))
  }

  function DecodeUsersList(payload: seq<Byte>): Result<AppMessage> {
    if |payload| < 2 then Thrown(Text("UsersList payload too short"))
    else match DecodeUsers(payload[2..], ReadU16(payload))
         case Thrown(what) => Thrown(what)
         case Ok(users) => Ok(UsersList(users))
  }

  function DecodeBannedIds(payload: seq<Byte>): Result<AppMessage> {
    if |payload| < 2 then Thrown(Text("BannedIds payload too short"))
    else if |payload| < 2 + ReadU16(payload) * 4 then Thrown(Text("BannedIds payload truncated"))
    else Ok(BannedIds(DecodeIds(payload[2..], ReadU16(payload))))
  }

  // ----- each decoder accepts exactly what begins with an encoding, and returns what was encoded -----

  /** Followed by a string: the front must match and the string must decode from what comes after it. */
  lemma FollowedIff(bytes: seq<Byte>, text: seq<Byte>, data: seq<Byte>)
    ensures Followed(bytes, text).Ok? && Followed(bytes, text).value <= data <==>
            bytes <= data && DecodeString(data[|bytes|..]) == Ok(text)
  {
    if bytes <= data {
      DecodeStringIff(data[|bytes|..], text);
      if EncodeString(text).Ok? {
        PrefixSplits(bytes, EncodeString(text).value, data);
      }
    } else if EncodeString(text).Ok? {
      assert bytes <= bytes + EncodeString(text).value;
    }
  }

  lemma PrefixSplits(a: seq<Byte>, b: seq<Byte>, data: seq<Byte>)
    ensures a + b <= data <==> a <= data && b <= data[|a|..]
  {
    if a + b <= data {
      assert data[..|a|] == (a + b)[..|a|] == a;
      assert data[|a|..][..|b|] == data[..|a| + |b|][|a|..] == (a + b)[|a|..] == b;
    }
    if a <= data && b <= data[|a|..] {
      assert data[..|a| + |b|] == data[..|a|] + data[|a|..][..|b|];
    }
  }

  lemma IdIff(id: nat, data: seq<Byte>)
    ensures id < U32_LIMIT && WriteU32(id) <= data <==> |data| >= 4 && ReadU32(data) == id
  {
    hide WriteU32, ReadU32;
    if |data| >= 4 {
      WriteReadU32(data);
      if WriteU32(id) <= data && id < U32_LIMIT {
        assert data[..4] == WriteU32(id);
        assert ReadU32(data) == ReadU32(data[..4]) by { SameFront(data, data[..4]); }
      }
    }
  }

  lemma SameFront(a: seq<Byte>, b: seq<Byte>)
    requires |a| >= 4 && |b| >= 4 && a[..4] == b[..4]
    ensures ReadU32(a) == ReadU32(b)
  {
    assert forall i :: 0 <= i < 4 ==> a[i] == a[..4][i] == b[..4][i] == b[i];
    assert a[..2] == b[..2];
  }

  lemma CountIff(count: nat, data: seq<Byte>)
    ensures count < U16_LIMIT && WriteU16(count) <= data <==> |data| >= 2 && ReadU16(data) == count
  {
    if |data| >= 2 {
      WriteReadU16(data);
    }
  }

  lemma UserIff(user: UserInfo, data: seq<Byte>)
    ensures DecodeUser(data) == Ok(user) <==>
            WellFormedUser(user) && EncodeUser(user).Ok? && EncodeUser(user).value <= data
    ensures EncodeUser(user).Ok? ==> |EncodeUser(user).value| == UserSize(user)
  {
    IdIff(user.id, data);
    FollowedIff(WriteU32(user.id), user.nickname, data);
  }

  lemma {:induction false} UsersIff(users: seq<UserInfo>, data: seq<Byte>)
    ensures DecodeUsers(data, |users|) == Ok(users) <==>
            (forall i :: 0 <= i < |users| ==> users[i].id < U32_LIMIT)
            && EncodeUsers(users).Ok? && EncodeUsers(users).value <= data
  {
    if users != [] {
      var first, rest := users[0], users[1..];
      assert users == [first] + rest;
      UserIff(first, data);
      if DecodeUser(data) == Ok(first) {
        var tail := data[UserSize(first)..];
        UsersIff(rest, tail);
        if EncodeUsers(rest).Ok? {
          PrefixSplits(EncodeUser(first).value, EncodeUsers(rest).value, data);
        }
      } else if EncodeUsers(users).Ok? && EncodeUsers(users).value <= data {
        PrefixSplits(EncodeUser(first).value, EncodeUsers(rest).value, data);
      }
    }
  }

  lemma {:induction false} IdsIff(ids: seq<nat>, data: seq<Byte>)
    ensures |data| >= 4 * |ids| && DecodeIds(data, |ids|) == ids <==>
            (forall i :: 0 <= i < |ids| ==> ids[i] < U32_LIMIT) && EncodeIds(ids) <= data
  {
    if ids != [] {
      var first, rest := ids[0], ids[1..];
      assert ids == [first] + rest;
      IdIff(first, data);
      PrefixSplits(WriteU32(first), EncodeIds(rest), data);
      if |data| >= 4 {
        IdsIff(rest, data[4..]);
      }
    }
  }

  lemma RecipientIff(tag: Byte, recipient: seq<Byte>, data: seq<Byte>)
    ensures DecodeRecipient(tag, data) == Ok(recipient) <==> WellFormedRecipient(tag, recipient) && recipient <= data
  {
    if tag == RECIPIENT_BY_ID {
      assert |recipient| == 4 && recipient <= data ==> recipient == data[..4];
    } else if tag == RECIPIENT_BY_NICKNAME {
      if DecodeString(data).Ok? {
        var nickname := DecodeString(data).value;
        DecodeStringIff(data, nickname);
        DecodeStringIff(EncodeString(nickname).value, nickname);
      }
      if WellFormedRecipient(tag, recipient) {
        var nickname := DecodeString(recipient).value;
        DecodeStringIff(data, nickname);
      }
    }
  }

  lemma ChatIff(chat: ChatPayload, payload: seq<Byte>)
    ensures DecodeChat(payload) == Ok(chat) <==>
            WellFormedChat(chat) && EncodeChat(chat).Ok? && EncodeChat(chat).value <= payload
  {
    hide WriteU32, ReadU32, DecodeString, DecodeRecipient, Followed, WellFormedRecipient;
    var id, recipient := WriteU32(chat.fromId), chat.recipientData;
    var header := id + [chat.recipientTag];
    FollowedIff(header + recipient, chat.text, payload);
    PrefixSplits(header, recipient, payload);
    PrefixSplits(id, [chat.recipientTag], payload);
    IdIff(chat.fromId, payload);
    if |payload| >= 5 {
      RecipientIff(payload[4], recipient, payload[5..]);
      assert [chat.recipientTag] <= payload[4..] <==> payload[4] == chat.recipientTag;
      HeaderSplits(payload, |recipient|);
    }
    assert DecodeChat(payload) == Ok(chat) ==> |payload| >= 5;
  }

  lemma HeaderSplits(payload: seq<Byte>, k: nat)
    ensures |payload| >= 5 + k ==> payload[5..][k..] == payload[5 + k..]
  {
  }

  /** The PDU pdu carries message m, possibly followed by bytes nobody looks at. */
  ghost predicate Carries(pdu: seq<Byte>, m: AppMessage) {
    && WellFormed(m)
    && if m.AssignId? then
         [APP_FUNCTION_CODE, TypeOf(m)] + WriteU32(m.id) <= pdu && (m.createRoom <==> |pdu| > 6 && pdu[6] != 0)
       else Encode(m).Ok? && Pdu(m, Encode(m).value) <= pdu
  }

  lemma PduSplits(type_: Byte, payload: seq<Byte>, pdu: seq<Byte>)
    ensures [APP_FUNCTION_CODE, type_] + payload <= pdu <==>
            |pdu| >= 2 && pdu[0] == APP_FUNCTION_CODE && pdu[1] == type_ && payload <= pdu[2..]
  {
    PrefixSplits([APP_FUNCTION_CODE, type_], payload, pdu);
    assert |pdu| >= 2 ==> pdu[..2] == [pdu[0], pdu[1]];
  }

  lemma UsersListIff(users: seq<UserInfo>, payload: seq<Byte>)
    ensures DecodeUsersList(payload) == Ok(UsersList(users)) <==>
            WellFormed(UsersList(users)) && Encode(UsersList(users)).Ok? && Encode(UsersList(users)).value <= payload
  {
    CountIff(|users|, payload);
    if |payload| >= 2 && |users| <= MAX_U16_COUNT {
      UsersIff(users, payload[2..]);
      if EncodeUsers(users).Ok? {
        UsersFit(users);
        PrefixSplits(WriteU16(|users|), EncodeUsers(users).value, payload);
      }
    }
  }

  lemma {:induction false} UsersFit(users: seq<UserInfo>)
    ensures EncodeUsers(users).Ok? <==> forall i :: 0 <= i < |users| ==> |users[i].nickname| <= MAX_U16_COUNT
  {
    if users != [] {
      UsersFit(users[1..]);
      assert users == [users[0]] + users[1..];
    }
  }

  lemma BannedIdsIff(ids: seq<nat>, payload: seq<Byte>)
    ensures DecodeBannedIds(payload) == Ok(BannedIds(ids)) <==>
            WellFormed(BannedIds(ids)) && Encode(BannedIds(ids)).Ok? && Encode(BannedIds(ids)).value <= payload
  {
    CountIff(|ids|, payload);
    if |payload| >= 2 && |ids| <= MAX_U16_COUNT {
      IdsIff(ids, payload[2..]);
      PrefixSplits(WriteU16(|ids|), EncodeIds(ids), payload);
    }
  }

  /** The same for the payload of any type but AssignId. */
  lemma PayloadIff(m: AppMessage, payload: seq<Byte>)
    requires !m.AssignId?
    ensures DecodePayload(TypeOf(m), payload) == Ok(m) <==> WellFormed(m) && Encode(m).Ok? && Encode(m).value <= payload
  {
    hide DecodeString, EncodeString, Followed, DecodeUser, EncodeUser, DecodeChat, EncodeChat, DecodeDeliver;
    hide DecodeUsersList, DecodeBannedIds, EncodeUsers, EncodeIds, WellFormedChat, WellFormedUser;
    match m
    case Register(nickname) => DecodeStringIff(payload, nickname);
    case Error(text) => DecodeStringIff(payload, text);
    case UserJoined(id, nickname) => UserIff(UserInfo(id, nickname), payload);
    case UserLeft(id, nickname) => UserIff(UserInfo(id, nickname), payload);
    case ListUsers =>
    case UsersList(users) => UsersListIff(users, payload);
    case BannedIds(ids) => BannedIdsIff(ids, payload);
    case Chat(chat) => ChatIff(chat, payload);
    case KeyOffer(chat) => ChatIff(chat, payload);
    case RoomKeyOffer(chat) => ChatIff(chat, payload);
    case Deliver(fromId, text) => DeliverIff(fromId, text, payload);
    case PeerKey(fromId, text) => DeliverIff(fromId, text, payload);
    case RoomKey(fromId, text) => DeliverIff(fromId, text, payload);
  }

  lemma DeliverIff(fromId: nat, text: seq<Byte>, payload: seq<Byte>)
    ensures DecodeDeliver(payload) == Ok((fromId, text)) <==>
            && fromId < U32_LIMIT && |text| <= MAX_U16_COUNT
            && Followed(WriteU32(fromId), text).Ok? && Followed(WriteU32(fromId), text).value <= payload
  {
    IdIff(fromId, payload);
    FollowedIff(WriteU32(fromId), text, payload);
  }

  /** Decoding cannot change the type a PDU announces. */
  lemma DecodedType(type_: Byte, payload: seq<Byte>)
    ensures DecodePayload(type_, payload).Ok? ==> TypeOf(DecodePayload(type_, payload).value) == type_
  {
  }

  /**
   * decode_app_message returns m exactly for the PDUs that begin with the encoding of m, so it returns
   * only well-formed messages and rejects every PDU that begins with no encoding.
   */
  lemma DecodeIff(pdu: seq<Byte>, m: AppMessage)
    ensures Decode(pdu) == Ok(m) <==> Carries(pdu, m)
  {
    if |pdu| >= 2 {
      DecodedType(pdu[1], pdu[2..]);
    }
    if m.AssignId? {
      PduSplits(TypeOf(m), WriteU32(m.id), pdu);
      if |pdu| >= 2 {
        IdIff(m.id, pdu[2..]);
      }
    } else {
      if |pdu| >= 2 {
        PayloadIff(m, pdu[2..]);
      }
      if Encode(m).Ok? {
        PduSplits(TypeOf(m), Encode(m).value, pdu);
      }
    }
  }

  /** The C++ types hold it: every id is a uint32_t. */
  predicate FitsTypes(m: AppMessage) {
    match m
    case AssignId(id, _) => id < U32_LIMIT
    case UserJoined(id, _) => id < U32_LIMIT
    case UserLeft(id, _) => id < U32_LIMIT
    case Deliver(fromId, _) => fromId < U32_LIMIT
    case PeerKey(fromId, _) => fromId < U32_LIMIT
    case RoomKey(fromId, _) => fromId < U32_LIMIT
    case Chat(chat) => chat.fromId < U32_LIMIT
    case KeyOffer(chat) => chat.fromId < U32_LIMIT
    case RoomKeyOffer(chat) => chat.fromId < U32_LIMIT
    case UsersList(users) => forall i :: 0 <= i < |users| ==> users[i].id < U32_LIMIT
    case BannedIds(ids) => forall i :: 0 <= i < |ids| ==> ids[i] < U32_LIMIT
    case _ => true
  }

  /** Well-formed messages are encoded without an exception. */
  lemma WellFormedEncodes(m: AppMessage)
    requires WellFormed(m)
    ensures Encode(m).Ok?
  {
    if m.UsersList? {
      UsersFit(m.users);
    }
  }

  /**
   * A message survives being encoded, framed and decoded exactly if it is well formed: its strings and
   * lists fit their sixteen-bit lengths and its recipient bytes match their tag.
   */
  lemma RoundTripIff(m: AppMessage)
    requires FitsTypes(m)
    ensures Encode(m).Ok? && Decode(Pdu(m, Encode(m).value)) == Ok(m) <==> WellFormed(m)
  {
    if WellFormed(m) {
      WellFormedEncodes(m);
      var pdu := Pdu(m, Encode(m).value);
      DecodeIff(pdu, m);
      if m.AssignId? {
        assert pdu[..6] == [APP_FUNCTION_CODE, TypeOf(m)] + WriteU32(m.id);
      }
    } else if Encode(m).Ok? {
      DecodeIff(Pdu(m, Encode(m).value), m);
    }
  }

  /**
   * Normal form: re-encoding what was decoded gives back the front of what was received; an AssignId,
   * whose flag byte may be missing or any non-zero number, gives a payload that decodes to the same.
   */
  lemma ReencodeIsNormalForm(pdu: seq<Byte>)
    requires Decode(pdu).Ok?
    ensures var m := Decode(pdu).value;
            && WellFormed(m) && Encode(m).Ok? && Decode(Pdu(m, Encode(m).value)) == Ok(m)
            && (!m.AssignId? ==> Pdu(m, Encode(m).value) <= pdu)
  {
    var m := Decode(pdu).value;
    DecodeIff(pdu, m);
    WellFormedFits(m);
    RoundTripIff(m);
  }

  lemma WellFormedFits(m: AppMessage)
    requires WellFormed(m)
    ensures FitsTypes(m)
  {
  }
}
