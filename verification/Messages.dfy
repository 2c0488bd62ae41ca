/** The fourteen application messages carried in a PDU with function code 0x41. */
module Messages {
  import opened Bytes

  const RECIPIENT_BY_ID: Byte := 0x01
  const RECIPIENT_BY_NICKNAME: Byte := 0x02
  const RECIPIENT_BROADCAST: Byte := 0x03

  datatype ChatPayload = ChatPayload(fromId: nat, recipientTag: Byte, recipientData: seq<Byte>, text: seq<Byte>)

  datatype UserInfo = UserInfo(id: nat, nickname: seq<Byte>)

  datatype AppMessage =
    | Register(nickname: seq<Byte>)
    | AssignId(id: nat, createRoom: bool)
    | Chat(chat: ChatPayload)
    | Deliver(fromId: nat, text: seq<Byte>)
    | Error(text: seq<Byte>)
    | UserJoined(id: nat, nickname: seq<Byte>)
    | UserLeft(id: nat, nickname: seq<Byte>)
    | ListUsers
    | UsersList(users: seq<UserInfo>)
    | KeyOffer(chat: ChatPayload)
    | RoomKeyOffer(chat: ChatPayload)
    | BannedIds(ids: seq<nat>)
    | PeerKey(fromId: nat, text: seq<Byte>)
    | RoomKey(fromId: nat, text: seq<Byte>)

  function BroadcastRecipient(): seq<Byte> {
    Text("all")
  }

  /** Recipient data as the decoder leaves it: four id bytes, an encoded nickname, or nothing. */
  ghost predicate WellFormedRecipient(tag: Byte, data: seq<Byte>) {
    match tag
    case 1 => |data| == 4
    case 2 => DecodeString(data).Ok? && EncodeString(DecodeString(data).value) == Ok(data)
    case 3 => data == []
    case _ => false
  }

  ghost predicate WellFormedChat(chat: ChatPayload) {
    chat.fromId < U32_LIMIT && |chat.text| <= MAX_U16_COUNT && WellFormedRecipient(chat.recipientTag, chat.recipientData)
  }

  predicate WellFormedUser(user: UserInfo) {
    user.id < U32_LIMIT && |user.nickname| <= MAX_U16_COUNT
  }

  /** The values that fit their wire fields: what a decoder can return and an encoder can write. */
  ghost predicate WellFormed(m: AppMessage) {
    match m
    case Register(nickname) => |nickname| <= MAX_U16_COUNT
    case AssignId(id, _) => id < U32_LIMIT
    case Chat(chat) => WellFormedChat(chat)
    case KeyOffer(chat) => WellFormedChat(chat)
    case RoomKeyOffer(chat) => WellFormedChat(chat)
    case Deliver(fromId, text) => fromId < U32_LIMIT && |text| <= MAX_U16_COUNT
    case PeerKey(fromId, text) => fromId < U32_LIMIT && |text| <= MAX_U16_COUNT
    case RoomKey(fromId, text) => fromId < U32_LIMIT && |text| <= MAX_U16_COUNT
    case Error(text) => |text| <= MAX_U16_COUNT
    case UserJoined(id, nickname) => WellFormedUser(UserInfo(id, nickname))
    case UserLeft(id, nickname) => WellFormedUser(UserInfo(id, nickname))
    case ListUsers => true
    case UsersList(users) => |users| <= MAX_U16_COUNT && forall i :: 0 <= i < |users| ==> WellFormedUser(users[i])
    case BannedIds(ids) => |ids| <= MAX_U16_COUNT && forall i :: 0 <= i < |ids| ==> ids[i] < U32_LIMIT
  }

  /** A message addressed to one client by id, as OutgoingMessageBuilder builds it. */
  function ById(fromId: nat, recipient: nat, text: seq<Byte>): ChatPayload {
    ChatPayload(fromId, RECIPIENT_BY_ID, WriteU32(recipient), text)
  }
}
