/**
 * The bytes on the wire and on disk, written out: the formats other programs and later versions rely on,
 * byte by byte, and that the encoders write and the decoders read exactly them.
 */
module WireFormat {
  import opened Bytes
  import opened Messages
  import opened Codec
  import opened Modbus
  import opened EndToEnd
  import opened Client
  import KS = PeerKeyStore

  // ----- numbers and strings -----

  /** Numbers are written and read with the most significant byte first. */
  lemma BigEndian16(v: nat, data: seq<Byte>)
    requires |data| >= 2
    ensures var r := WriteU16(v); |r| == 2 && r[0] as int * 256 + r[1] as int == v % 65536
    ensures ReadU16(data) == data[0] as int * 256 + data[1] as int
  {
  }

  lemma BigEndian32(v: nat, data: seq<Byte>)
    requires v < 4294967296 && |data| >= 4
    ensures var r := WriteU32(v); |r| == 4 && r[0] as int * 16777216 + r[1] as int * 65536 + r[2] as int * 256 + r[3] as int == v
    ensures ReadU32(data) == data[0] as int * 16777216 + data[1] as int * 65536 + data[2] as int * 256 + data[3] as int
  {
    assert WriteU32(v) == WriteU16(v / 65536) + WriteU16(v % 65536);
    BigEndian16(v / 65536, data);
    BigEndian16(v % 65536, data[2..]);
    assert data[..2][0] == data[0] && data[..2][1] == data[1];
  }

  function Two(n: nat): seq<Byte>
    requires n < 65536
  {
    [n / 256, n % 256]
  }

  function Four(n: nat): seq<Byte>
    requires n < 4294967296
  {
    [n / 16777216, n / 65536 % 256, n / 256 % 256, n % 256]
  }

  function Counted(text: seq<Byte>): seq<Byte>
    requires |text| < 65536
  {
    Two(|text|) + text
  }

  lemma WritesTwo(n: nat)
    requires n < 65536
    ensures WriteU16(n) == Two(n)
  {
  }

  lemma WritesFour(n: nat)
    requires n < 4294967296
    ensures WriteU32(n) == Four(n)
  {
    Halves(n);
    assert WriteU32(n) == WriteU16(n / 65536) + WriteU16(n % 65536);
  }

  lemma Halves(n: nat)
    ensures n / 65536 / 256 == n / 16777216 && n % 65536 / 256 == n / 256 % 256 && n % 65536 % 256 == n % 256
  {
    var q, r := n / 65536, n % 65536;
    assert n == q * 65536 + r;
    assert n / 256 == q * 256 + r / 256;
  }

  lemma WritesCounted(text: seq<Byte>)
    requires |text| < 65536
    ensures EncodeString(text) == Ok(Counted(text))
  {
    WritesTwo(|text|);
  }

  // ----- messages -----

  /** The entries of a list of users. */
  function UserBytes(users: seq<UserInfo>): seq<Byte>
    requires forall i :: 0 <= i < |users| ==> WellFormedUser(users[i])
  {
    if users == [] then []
    else
      assert WellFormedUser(users[0]);
      Four(users[0].id) + Counted(users[0].nickname) + UserBytes(users[1..])
  }

  function IdBytes(ids: seq<nat>): seq<Byte>
    requires forall i :: 0 <= i < |ids| ==> ids[i] < 4294967296
  {
    if ids == [] then [] else Four(ids[0]) + IdBytes(ids[1..])
  }

  function ChatBytes(chat: ChatPayload): seq<Byte>
    requires WellFormedChat(chat)
  {
    Four(chat.fromId) + [chat.recipientTag] + chat.recipientData + Counted(chat.text)
  }

  function UserEntry(id: nat, nickname: seq<Byte>): seq<Byte>
    requires id < 4294967296 && |nickname| < 65536
  {
    Four(id) + Counted(nickname)
  }

  /** The PDU of every message. */
  ghost function Table(m: AppMessage): seq<Byte>
    requires WellFormed(m)
  {
    match m
    case Register(nickname) => [0x41, 0x01] + Counted(nickname)
    case AssignId(id, createRoom) => [0x41, 0x02] + Four(id) + [if createRoom then 1 else 0]
    case Chat(chat) => [0x41, 0x03] + ChatBytes(chat)
    case Deliver(fromId, text) => [0x41, 0x04] + UserEntry(fromId, text)
    case Error(text) => [0x41, 0x05] + Counted(text)
    case UserJoined(id, nickname) => [0x41, 0x06] + UserEntry(id, nickname)
    case UserLeft(id, nickname) => [0x41, 0x07] + UserEntry(id, nickname)
    case ListUsers => [0x41, 0x08]
    case UsersList(users) => [0x41, 0x09] + Two(|users|) + UserBytes(users)
    case KeyOffer(chat) => [0x41, 0x0A] + ChatBytes(chat)
    case RoomKeyOffer(chat) => [0x41, 0x0B] + ChatBytes(chat)
    case BannedIds(ids) => [0x41, 0x0C] + Two(|ids|) + IdBytes(ids)
    case PeerKey(fromId, text) => [0x41, 0x0D] + UserEntry(fromId, text)
    case RoomKey(fromId, text) => [0x41, 0x0E] + UserEntry(fromId, text)
  }

  lemma {:induction false} WritesUsers(users: seq<UserInfo>)
    requires forall i :: 0 <= i < |users| ==> WellFormedUser(users[i])
    ensures EncodeUsers(users) == Ok(UserBytes(users))
  {
    if users != [] {
      hide WriteU32, WriteU16, EncodeString, Four, Counted;
      WritesFour(users[0].id);
      WritesCounted(users[0].nickname);
      WritesUsers(users[1..]);
    }
  }

  lemma {:induction false} WritesIds(ids: seq<nat>)
    requires forall i :: 0 <= i < |ids| ==> ids[i] < 4294967296
    ensures EncodeIds(ids) == IdBytes(ids)
  {
    if ids != [] {
      WritesFour(ids[0]);
      WritesIds(ids[1..]);
    }
  }

  lemma WritesChat(chat: ChatPayload)
    requires WellFormedChat(chat)
    ensures EncodeChat(chat) == Ok(ChatBytes(chat))
  {
    hide WriteU32, WriteU16, EncodeString, Four, Counted;
    WritesFour(chat.fromId);
    WritesCounted(chat.text);
  }

  lemma WritesEntry(id: nat, text: seq<Byte>)
    requires id < 4294967296 && |text| < 65536
    ensures Followed(WriteU32(id), text) == Ok(UserEntry(id, text))
  {
    hide WriteU32, WriteU16, EncodeString, Four, Counted;
    WritesFour(id);
    WritesCounted(text);
  }

  lemma WritesPayload(m: AppMessage)
    requires WellFormed(m)
    ensures Encode(m).Ok? && Table(m) == Table(m)[..2] + Encode(m).value
  {
    hide WriteU32, WriteU16, EncodeString, Four, Counted, Followed, EncodeChat, ChatBytes, UserEntry, EncodeUsers, UserBytes, EncodeIds, IdBytes;
    match m {
      case Register(text) => WritesCounted(text);
      case Error(text) => WritesCounted(text);
      case AssignId(id, _) => WritesFour(id);
      case Chat(chat) => WritesChat(chat);
      case KeyOffer(chat) => WritesChat(chat);
      case RoomKeyOffer(chat) => WritesChat(chat);
      case Deliver(id, text) => WritesEntry(id, text);
      case PeerKey(id, text) => WritesEntry(id, text);
      case RoomKey(id, text) => WritesEntry(id, text);
      case UserJoined(id, text) => WritesEntry(id, text);
      case UserLeft(id, text) => WritesEntry(id, text);
      case ListUsers =>
      case UsersList(users) =>
        WritesTwo(|users|);
        WritesUsers(users);
      case BannedIds(ids) =>
        WritesTwo(|ids|);
        WritesIds(ids);
    }
  }

  /** make_frame writes exactly the PDU of the table, and decode_app_message reads the message back from it. */
  lemma PduIsTable(m: AppMessage)
    requires WellFormed(m)
    ensures Encode(m).Ok? && Pdu(m, Encode(m).value) == Table(m)
    ensures Decode(Table(m)) == Ok(m)
  {
    WritesPayload(m);
    hide Encode, Decode;
    RoundTripIff(m);
  }

  /** A message to one client by id is marked 1 and carries the id's four bytes. */
  lemma ByIdIsTagged(fromId: nat, recipient: nat, text: seq<Byte>)
    requires recipient < 4294967296
    ensures ById(fromId, recipient, text) == ChatPayload(fromId, 1, Four(recipient), text)
  {
    WritesFour(recipient);
  }

  // ----- frames -----

  /** A frame: the transaction id, the protocol id 0, the length of what follows, the unit id, the PDU. */
  lemma FrameBytes(f: Frame)
    requires f.transactionId < 65536 && |f.pdu| <= 65534
    ensures EncodeFrame(f) == Two(f.transactionId) + [0, 0] + Two(|f.pdu| + 1) + [f.unitId] + f.pdu
    ensures DecodeFrame(Two(f.transactionId) + [0, 0] + Two(|f.pdu| + 1) + [f.unitId] + f.pdu) == Complete(f, 7 + |f.pdu|)
  {
    WritesTwo(f.transactionId);
    WritesTwo(0);
    WritesTwo(|f.pdu| + 1);
    assert Two(0) == [0, 0];
    hide DecodeFrame, WriteU16;
    FrameRoundTripIff(f);
  }

  /** A message that fits goes out with transaction and unit id 0, and those bytes are what the other end takes for it. */
  lemma WireBytes(m: AppMessage)
    requires WellFormed(m) && |Table(m)| <= 65534
    ensures OnWire(m) == Some([0, 0, 0, 0] + Two(|Table(m)| + 1) + [0] + Table(m))
    ensures FromWire([0, 0, 0, 0] + Two(|Table(m)| + 1) + [0] + Table(m)) == Some(m)
  {
    hide Table, Encode, EncodeFrame, WellFormed, NextFrame, Decode;
    PduIsTable(m);
    FrameBytes(Frame(0, 0, Table(m)));
    assert Two(0) + [0, 0] == [0, 0, 0, 0];
    CrossesIff(m);
    assert FromWire(OnWire(m).value + []) == Some(m);
    assert OnWire(m).value + [] == OnWire(m).value;
  }

  // ----- what is refused, and with which words -----

  /** The decoder's exceptions, each with its text; what is not listed here depends on a string inside. */
  lemma DecodeRefuses(pdu: seq<Byte>)
    ensures |pdu| < 2 ==> Decode(pdu) == Thrown(Text("PDU too short"))
    ensures |pdu| >= 2 && pdu[0] != 0x41 ==> Decode(pdu) == Thrown(Text("Unexpected function code"))
    ensures |pdu| >= 2 && pdu[0] == 0x41 ==>
              && (pdu[1] == 0x00 || pdu[1] > 0x0E ==> Decode(pdu) == Thrown(Text("Unknown message type")))
              && (pdu[1] == 0x02 && |pdu| < 6 ==> Decode(pdu) == Thrown(Text("AssignId payload too short")))
              && (pdu[1] in {0x06, 0x07} && |pdu| < 6 ==> Decode(pdu) == Thrown(Text("UserInfo id too short")))
              && (pdu[1] in {0x04, 0x0D, 0x0E} && |pdu| < 6 ==> Decode(pdu) == Thrown(Text("Deliver payload too short")))
              && (pdu[1] in {0x03, 0x0A, 0x0B} && |pdu| < 7 ==> Decode(pdu) == Thrown(Text("Chat payload too short")))
              && (pdu[1] == 0x09 && |pdu| < 4 ==> Decode(pdu) == Thrown(Text("UsersList payload too short")))
              && (pdu[1] == 0x0C && |pdu| < 4 ==> Decode(pdu) == Thrown(Text("BannedIds payload too short")))
              && (pdu[1] in {0x01, 0x05} && |pdu| < 4 ==> Decode(pdu) == Thrown(Text("Invalid string payload")))
  {
  }

  /** Longer PDUs whose count, length or recipient does not match what is there. */
  lemma DecodeRefusesCounts(pdu: seq<Byte>)
    requires |pdu| >= 4 && pdu[0] == 0x41
    ensures pdu[1] in {0x01, 0x05} && |pdu| < 4 + pdu[2] as int * 256 + pdu[3] as int ==> Decode(pdu) == Thrown(Text("Truncated string payload"))
    ensures pdu[1] == 0x0C && |pdu| < 4 + 4 * (pdu[2] as int * 256 + pdu[3] as int) ==> Decode(pdu) == Thrown(Text("BannedIds payload truncated"))
    ensures pdu[1] in {0x03, 0x0A, 0x0B} && |pdu| >= 7 ==>
              && (pdu[6] !in {1, 2, 3} ==> Decode(pdu) == Thrown(Text("Unknown recipient tag")))
              && (pdu[6] == 1 && |pdu| < 11 ==> Decode(pdu) == Thrown(Text("Chat id recipient too short")))
  {
    var payload := pdu[2..];
    assert payload[0] == pdu[2] && payload[1] == pdu[3];
  }

  /** The recipient's bytes: 1 and four of an id, 2 and a nickname with its length, or 3 and none. */
  lemma RecipientBytes(tag: Byte, data: seq<Byte>)
    ensures WellFormedRecipient(tag, data) <==>
            || (tag == 1 && |data| == 4)
            || (tag == 2 && exists nickname: seq<Byte> :: |nickname| < 65536 && data == Counted(nickname))
            || (tag == 3 && data == [])
  {
    if tag == 2 && WellFormedRecipient(tag, data) {
      var nickname := DecodeString(data).value;
      WritesCounted(nickname);
      assert data == Counted(nickname);
    }
    if tag == 2 {
      if nickname: seq<Byte> :| |nickname| < 65536 && data == Counted(nickname) {
        WritesCounted(nickname);
        DecodeStringIff(data, nickname);
      }
    }
  }

  // ----- the key store on disk -----

  /** Where entry i of the peers is, if the peers begin at offset. */
  function EntryAt(offset: nat, i: nat): nat {
    offset + 36 * i
  }

  lemma {:induction false} WritesEntries(order: seq<nat>, peers: map<nat, seq<Byte>>, i: nat)
    requires forall k :: 0 <= k < |order| ==> order[k] in peers && order[k] < 4294967296 && |peers[order[k]]| == 32
    ensures |KS.Entries(order, peers)| == 36 * |order|
    ensures i < |order| ==> KS.Entries(order, peers)[36 * i..36 * i + 36] == Four(order[i]) + peers[order[i]]
    decreases |order|
  {
    hide WriteU32, Four;
    if order != [] {
      var rest := KS.Entries(order[1..], peers);
      WritesFour(order[0]);
      assert KS.Entries(order, peers) == Four(order[0]) + peers[order[0]] + rest;
      WritesEntries(order[1..], peers, if i > 0 then i - 1 else 0);
      if 0 < i < |order| {
        assert KS.Entries(order, peers)[36 * i..36 * i + 36] == rest[36 * (i - 1)..36 * (i - 1) + 36];
      }
    }
  }

  /**
   * The blob of a store: version 1, the secret and the public key, a byte that says whether a room key
   * follows, that key, the number of peers in two bytes, and for each its id in four and its key.
   */
  lemma KeyStoreBytes(s: KeyStore, order: seq<nat>, i: nat)
    requires KS.Sized(s) && s.secret != [] && |s.peers| <= 65535 && KS.IsOrder(order, s.peers.Keys)
    ensures var blob, offset := KS.Blob(s, order), if s.room.Some? then 100 else 68;
            && |blob| == offset + 36 * |order|
            && blob[0] == 1 && blob[1..33] == s.secret && blob[33..65] == s.public
            && (if s.room.Some? then blob[65] == 1 && blob[66..98] == s.room.value else blob[65] == 0)
            && blob[offset - 2..offset] == Two(|order|)
            && (i < |order| ==> blob[EntryAt(offset, i)..EntryAt(offset, i) + 36] == Four(order[i]) + s.peers[order[i]])
  {
    hide KS.Entries, Four;
    WritesEntries(order, s.peers, i);
    WritesTwo(|order|);
    var entries, header := KS.Entries(order, s.peers), KS.Header(s);
    var blob, offset := KS.Blob(s, order), if s.room.Some? then 100 else 68;
    assert |s.peers| == |order|;
    assert |header| == offset - 2;
    assert blob == header + (Two(|order|) + entries);
    assert blob[..offset - 2] == header;
    assert header[1..33] == s.secret && header[33..65] == s.public;
    assert blob[1..33] == header[1..33] && blob[33..65] == header[33..65];
    assert s.room.Some? ==> header[66..98] == s.room.value && blob[66..98] == header[66..98];
    assert blob[offset..] == entries;
    assert i < |order| ==> blob[EntryAt(offset, i)..EntryAt(offset, i) + 36] == entries[36 * i..36 * i + 36];
  }

  /** What a store is like after a blob that is refused, and the words of the exception. */
  lemma KeyStoreRefuses(s: KeyStore, blob: seq<Byte>)
    ensures |blob| < 68 ==> KS.Restored(s, blob) == (s, Some(Text("keystore blob too short")))
    ensures |blob| >= 68 && blob[0] != 1 ==> KS.Restored(s, blob) == (s, Some(Text("unsupported keystore version")))
    ensures |blob| >= 68 && blob[0] == 1 ==>
              var keys := KeyStore(blob[1..33], blob[33..65], None, s.peers);
              && (blob[65] != 0 && |blob| < 98 ==> KS.Restored(s, blob) == (keys, Some(Text("truncated room key in keystore"))))
              && (blob[65] != 0 && 98 <= |blob| < 100 ==>
                    KS.Restored(s, blob) == (keys.(room := Some(blob[66..98])), Some(Text("truncated peer count in keystore"))))
  {
  }

  /** The id and the key of entry i. */
  function IdAt(data: seq<Byte>, i: nat): nat
    requires |data| >= 36 * i + 36
  {
    var at := 36 * i;
    data[at] as int * 16777216 + data[at + 1] as int * 65536 + data[at + 2] as int * 256 + data[at + 3] as int
  }

  function KeyAt(data: seq<Byte>, i: nat): seq<Byte>
    requires |data| >= 36 * i + 36
  {
    data[36 * i + 4..36 * i + 36]
  }

  /** Reading the peers, entry by entry: each adds its id with its key, or replaces the key the id had. */
  lemma {:induction false} OneMorePeer(peers: map<nat, seq<Byte>>, data: seq<Byte>, count: nat)
    requires |data| >= 36 * (count + 1)
    ensures KS.RestoredPeers(peers, data, 0) == (peers, None)
    ensures KS.RestoredPeers(peers, data, count + 1) ==
            (KS.RestoredPeers(peers, data, count).0[IdAt(data, count) := KeyAt(data, count)], None)
    decreases count
  {
    hide ReadU32;
    var first, rest := peers[ReadU32(data) := data[4..36]], data[36..];
    BigEndian32(0, data);
    assert KS.RestoredPeers(peers, data, count + 1) == KS.RestoredPeers(first, rest, count);
    if count > 0 {
      OneMorePeer(first, rest, count - 1);
      assert KS.RestoredPeers(peers, data, count) == KS.RestoredPeers(first, rest, count - 1);
      assert IdAt(rest, count - 1) == IdAt(data, count) && KeyAt(rest, count - 1) == KeyAt(data, count);
    }
  }
}
