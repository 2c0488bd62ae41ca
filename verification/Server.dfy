/**
 * The server as a value: the registry, the id allocator, the ban list and, for every open connection,
 * the messages written to it since it was accepted. A connection whose socket has been shut down takes
 * nothing more: sending to it fails, and the server does not look at the result. Each Event is one indivisible piece of
 * work of the poll loop; the iteration order of the registry's hash maps does not show, because one
 * step hands at most one message to each connection.
 */
module Server {
  import opened Bytes
  import opened Messages
  import opened Registry

  /** next_id_ is a uint32_t: the largest id that can be handed out without wrapping the counter. */
  const MAX_CLIENT_ID: nat := 0xFFFF_FFFE

  type Outbox = map<Fd, seq<AppMessage>>

  datatype Server = Server(reg: Registry, nextId: nat, free: set<nat>, banned: set<nat>, outbox: Outbox, shut: set<Fd>)

  /** What transport_->receive brings: a decoded message, a decoding exception, or a closed connection. */
  datatype Incoming = Received(message: AppMessage) | Malformed(what: seq<Byte>) | Closed

  datatype Event =
    | Accept(fd: Fd)
    | Hangup(fd: Fd)
    | Data(fd: Fd, incoming: Incoming)
    | Ban(ids: seq<nat>)

  // ----- sets of numbers -----

  ghost function Min(s: set<nat>): (m: nat)
    requires s != {}
    ensures m in s && forall k :: k in s ==> m <= k
  {
    var x :| x in s;
    if s == {x} then x
    else
      var rest := Min(s - {x});
      assert forall k :: k in s ==> k == x || k in s - {x};
      if x < rest then x else rest
  }

  // ----- sending -----

  function Pushed(outbox: Outbox, fd: Fd, m: AppMessage): Outbox {
    outbox[fd := (if fd in outbox then outbox[fd] else []) + [m]]
  }

  function PushedAll(outbox: Outbox, targets: set<Fd>, m: AppMessage): Outbox {
    map fd | fd in outbox.Keys + targets ::
      var sent := if fd in outbox then outbox[fd] else [];
      if fd in targets then sent + [m] else sent
  }

  /** transport_->send to one connection. */
  function Sent(s: Server, fd: Fd, m: AppMessage): Server {
    if fd in s.shut then s else s.(outbox := Pushed(s.outbox, fd, m))
  }

  /** transport_->send to several connections. */
  function SentAll(s: Server, targets: set<Fd>, m: AppMessage): Server {
    s.(outbox := PushedAll(s.outbox, targets - s.shut, m))
  }

  // ----- the id allocator -----

  /** The first number from n on, modulo 2^32, that is not banned; 0 is never banned. */
  function SkipBanned(n: nat, banned: set<nat>): (id: nat)
    requires n < U32_LIMIT && 0 !in banned
    ensures id < U32_LIMIT && id !in banned
    decreases if n == 0 then 0 else U32_LIMIT - n
  {
    if n in banned then SkipBanned((n + 1) % U32_LIMIT, banned) else n
  }

  /** allocate_client_id: the id it returns. */
  ghost function AllocatedId(s: Server): (id: nat)
    requires s.nextId < U32_LIMIT && 0 !in s.banned
  {
    if s.free - s.banned != {} then Min(s.free - s.banned) else SkipBanned(s.nextId, s.banned)
  }

  /** allocate_client_id: the state it leaves. Free ids are tried in ascending order and dropped when banned. */
  ghost function Allocated(s: Server): Server
    requires s.nextId < U32_LIMIT && 0 !in s.banned
  {
    var id := AllocatedId(s);
    if s.free - s.banned != {} then s.(free := set f | f in s.free && f > id)
    else s.(free := {}, nextId := (id + 1) % U32_LIMIT)
  }

  function Released(s: Server, id: nat): Server {
    if id in s.banned then s else s.(free := s.free + {id})
  }

  // ----- connections -----

  ghost function Accepted(s: Server, fd: Fd): Server
    requires s.nextId < U32_LIMIT && 0 !in s.banned
  {
    var createRoom := s.reg.clients == map[];
    var id := AllocatedId(s);
    var reg := s.reg.Add(fd, id);
    SentAll(Allocated(s).(reg := reg, outbox := s.outbox[fd := [AssignId(id, createRoom)]], shut := s.shut - {fd}),
            reg.clients.Keys - {fd}, UserJoined(id, []))
  }

  function Removed(s: Server, fd: Fd): Server {
    if fd !in s.reg.clients then s
    else
      var record := s.reg.clients[fd];
      var reg := s.reg.Remove(fd);
      SentAll(Released(s, record.id).(reg := reg, outbox := s.outbox - {fd}, shut := s.shut - {fd}),
              reg.clients.Keys, UserLeft(record.id, record.nickname))
  }

  // ----- handlers -----

  /**
   * Sending an Error whose text may not fit: encode_error throws, handle_client_data catches, and the
   * sender is told "String too long" instead.
   */
  function ErrorReplied(s: Server, fd: Fd, text: seq<Byte>): Server {
    Sent(s, fd, Error(if |text| <= MAX_U16_COUNT then text else Text("String too long")))
  }

  function Registered(s: Server, fd: Fd, nickname: seq<Byte>): Server {
    if fd !in s.reg.clients then s
    else if nickname == [] then ErrorReplied(s, fd, Text("Nickname cannot be empty"))
    else if nickname == BroadcastRecipient() then ErrorReplied(s, fd, Text("Nickname 'all' is reserved"))
    else if s.reg.NicknameTakenByOther(nickname, s.reg.clients[fd].id) then
      ErrorReplied(s, fd, Text("Nickname already taken"))
    else
      var id := s.reg.clients[fd].id;
      SentAll(s.(reg := s.reg.SetNickname(fd, nickname)), s.reg.clients.Keys - {fd}, UserJoined(id, nickname))
  }

  /** The three relays: Chat, KeyOffer and RoomKeyOffer go out as Deliver, PeerKey and RoomKey. */
  datatype Relay = ChatRelay | KeyRelay | RoomRelay

  function Wrapped(relay: Relay, fromId: nat, text: seq<Byte>): AppMessage {
    match relay
    case ChatRelay => Deliver(fromId, text)
    case KeyRelay => PeerKey(fromId, text)
    case RoomRelay => RoomKey(fromId, text)
  }

  /** The connections a broadcast from fd goes to. */
  function Peers(s: Server, fd: Fd): set<Fd> {
    set t | t in s.reg.clients && t != fd && s.reg.clients[t].id !in s.banned
  }

  function Relayed(s: Server, fd: Fd, chat: ChatPayload, relay: Relay): Server {
    if fd !in s.reg.clients || s.reg.clients[fd].id in s.banned then s
    else
      var fromId := s.reg.clients[fd].id;
      match s.reg.RecipientLabel(chat)
      case Thrown(what) => ErrorReplied(s, fd, what)
      case Ok(toLabel) =>
        if chat.recipientTag == RECIPIENT_BROADCAST then
          SentAll(s, Peers(s, fd), Wrapped(relay, fromId, chat.text))
        else match s.reg.ResolveRecipient(chat)
             case Thrown(what) => ErrorReplied(s, fd, what)
             case Ok(None) => ErrorReplied(s, fd, Text("Unknown recipient: ") + toLabel)
             case Ok(Some(target)) =>
               if target in s.banned then ErrorReplied(s, fd, Text("Recipient banned: ") + toLabel)
               else if target !in s.reg.fdById then ErrorReplied(s, fd, Text("Recipient offline: ") + toLabel)
               else Sent(s, s.reg.fdById[target], Wrapped(relay, fromId, chat.text))
  }

  ghost function SortedIds(s: set<nat>): (ids: seq<nat>)
    ensures |ids| == |s|
    ensures forall i :: 0 <= i < |ids| ==> ids[i] in s
    decreases |s|
  {
    if s == {} then []
    else
      var least := Min(s);
      [least] + SortedIds(s - {least})
  }

  lemma {:induction false} SortedIdsContents(s: set<nat>)
    ensures forall id :: id in s ==> id in SortedIds(s)
    ensures forall i, j :: 0 <= i < j < |SortedIds(s)| ==> SortedIds(s)[i] < SortedIds(s)[j]
    decreases |s|
  {
    if s != {} {
      var least := Min(s);
      SortedIdsContents(s - {least});
      assert SortedIds(s) == [least] + SortedIds(s - {least});
      hide SortedIds, Min;
      LeastFirst(s, least, SortedIds(s - {least}));
    }
  }

  lemma LeastFirst(s: set<nat>, least: nat, rest: seq<nat>)
    requires least in s && (forall k :: k in s ==> least <= k)
    requires (forall id :: id in s - {least} ==> id in rest) && (forall i :: 0 <= i < |rest| ==> rest[i] in s - {least})
    requires forall i, j :: 0 <= i < j < |rest| ==> rest[i] < rest[j]
    ensures forall id :: id in s ==> id in [least] + rest
    ensures forall i, j :: 0 <= i < j < |[least] + rest| ==> ([least] + rest)[i] < ([least] + rest)[j]
  {
    assert forall i :: 0 <= i < |rest| ==> least < rest[i];
    forall id | id in s
      ensures id in [least] + rest
    {
      assert id == least || id in rest;
    }
  }

  /** The nicknames of the listed ids, as collect_users pairs them. */
  ghost function UsersOf(ids: seq<nat>, names: map<nat, seq<Byte>>): (users: seq<UserInfo>)
    requires forall i :: 0 <= i < |ids| ==> ids[i] in names
    ensures |users| == |ids|
    ensures forall i :: 0 <= i < |users| ==> users[i].id == ids[i] && users[i].nickname == names[ids[i]]
  {
    if ids == [] then [] else [UserInfo(ids[0], names[ids[0]])] + UsersOf(ids[1..], names)
  }

  /** collect_users: the registry's view, in ascending id order. */
  ghost function SortedUsers(names: map<nat, seq<Byte>>): (users: seq<UserInfo>)
    ensures |users| == |names.Keys|
  {
    var ids := SortedIds(names.Keys);
    UsersOf(ids, names)
  }

  /** The list names every client of the registry exactly once, with its nickname, in ascending id order. */
  lemma SortedUsersContents(names: map<nat, seq<Byte>>)
    ensures var users := SortedUsers(names);
            && (forall i, j :: 0 <= i < j < |users| ==> users[i].id < users[j].id)
            && (forall i :: 0 <= i < |users| ==> users[i].id in names && users[i].nickname == names[users[i].id])
            && (forall id :: id in names ==> exists i :: 0 <= i < |users| && users[i].id == id)
  {
    hide SortedIds, UsersOf;
    var ids := SortedIds(names.Keys);
    var users := UsersOf(ids, names);
    SortedIdsContents(names.Keys);
    forall id | id in names
      ensures exists i :: 0 <= i < |users| && users[i].id == id
    {
      assert id in ids;
    }
  }

  ghost function UsersListed(s: Server, fd: Fd): Server
    requires s.reg.ValidIds()
  {
    var users := SortedUsers(s.reg.Names());
    if |users| > MAX_U16_COUNT then ErrorReplied(s, fd, Text("Too many users"))
    else Sent(s, fd, UsersList(users))
  }

  ghost function Dispatched(s: Server, fd: Fd, m: AppMessage): Server
    requires s.reg.ValidIds()
  {
    match m
    case Register(nickname) => Registered(s, fd, nickname)
    case Chat(chat) => Relayed(s, fd, chat, ChatRelay)
    case KeyOffer(chat) => Relayed(s, fd, chat, KeyRelay)
    case RoomKeyOffer(chat) => Relayed(s, fd, chat, RoomRelay)
    case ListUsers => UsersListed(s, fd)
    case _ => ErrorReplied(s, fd, Text("Unsupported message type"))
  }

  ghost function DataHandled(s: Server, fd: Fd, incoming: Incoming): Server
    requires s.reg.ValidIds()
  {
    if fd in s.reg.clients && s.reg.clients[fd].id in s.banned then Removed(s, fd)
    else match incoming
         case Closed => Removed(s, fd)
         case Malformed(what) => ErrorReplied(s, fd, what)
         case Received(m) => Dispatched(s, fd, m)
  }

  // ----- bans -----

  /** The ids of a ban command that were not banned yet, each once, in order of first mention. */
  function NewlyBanned(ids: seq<nat>, banned: set<nat>): (newIds: seq<nat>)
    ensures forall id :: id in newIds <==> id in ids && id != 0 && id !in banned
  {
    if ids == [] then []
    else if ids[0] == 0 || ids[0] in banned then NewlyBanned(ids[1..], banned)
    else [ids[0]] + NewlyBanned(ids[1..], banned + {ids[0]})
  }

  /** Where x is first mentioned. */
  function FirstIndex(ids: seq<nat>, x: nat): (i: nat)
    requires x in ids
    ensures i < |ids| && ids[i] == x && forall k :: 0 <= k < i ==> ids[k] != x
  {
    if ids[0] == x then 0 else 1 + FirstIndex(ids[1..], x)
  }

  /** Both are mentioned, and a before b. */
  predicate MentionedBefore(ids: seq<nat>, a: nat, b: nat) {
    a in ids && b in ids && a != b && FirstIndex(ids, a) < FirstIndex(ids, b)
  }

  /** The new ids come in the order of their first mention, and so without repetition. */
  lemma {:induction false} NewlyBannedInOrder(ids: seq<nat>, banned: set<nat>, i: nat, j: nat)
    requires i < j < |NewlyBanned(ids, banned)|
    ensures MentionedBefore(ids, NewlyBanned(ids, banned)[i], NewlyBanned(ids, banned)[j])
    decreases |ids|
  {
    hide NewlyBanned, MentionedBefore;
    NewlyBannedHead(ids, banned, i);
    NewlyBannedHead(ids, banned, j);
    if ids[0] == 0 || ids[0] in banned {
      NewlyBannedInOrder(ids[1..], banned, i, j);
      MentionedLater(ids, NewlyBanned(ids, banned)[i], NewlyBanned(ids, banned)[j]);
    } else if i == 0 {
      MentionedFirst(ids, NewlyBanned(ids, banned)[j]);
    } else {
      NewlyBannedInOrder(ids[1..], banned + {ids[0]}, i - 1, j - 1);
      MentionedLater(ids, NewlyBanned(ids, banned)[i], NewlyBanned(ids, banned)[j]);
    }
  }

  lemma NewlyBannedHead(ids: seq<nat>, banned: set<nat>, j: nat)
    requires j < |NewlyBanned(ids, banned)|
    ensures ids != []
    ensures if ids[0] == 0 || ids[0] in banned then NewlyBanned(ids, banned) == NewlyBanned(ids[1..], banned)
            else NewlyBanned(ids, banned) == [ids[0]] + NewlyBanned(ids[1..], banned + {ids[0]})
    ensures ids[0] == 0 || ids[0] in banned || j > 0 ==>
              NewlyBanned(ids, banned)[j] in ids[1..] && NewlyBanned(ids, banned)[j] != ids[0]
  {
    var skips := ids[0] == 0 || ids[0] in banned;
    var rest := NewlyBanned(ids[1..], if skips then banned else banned + {ids[0]});
    if skips || j > 0 {
      assert rest[if skips then j else j - 1] in rest;
    }
  }

  lemma MentionedFirst(ids: seq<nat>, b: nat)
    requires ids != [] && b in ids[1..] && b != ids[0]
    ensures MentionedBefore(ids, ids[0], b)
  {
  }

  lemma MentionedLater(ids: seq<nat>, a: nat, b: nat)
    requires ids != [] && a != ids[0] && b != ids[0] && MentionedBefore(ids[1..], a, b)
    ensures MentionedBefore(ids, a, b)
  {
    assert ids == [ids[0]] + ids[1..];
  }

  function NonZero(ids: seq<nat>): set<nat> {
    set id | id in ids && id != 0
  }

  /** The bookkeeping of ban_ids, before anybody is told. */
  function Marked(s: Server, ids: seq<nat>): Server {
    s.(banned := s.banned + NonZero(ids), free := s.free - NonZero(ids))
  }

  /** The connections a ban is announced to. */
  function Unbanned(s: Server): set<Fd> {
    set t | t in s.reg.clients && s.reg.clients[t].id !in s.banned
  }

  /** The connections of the given ids. */
  function FdsOf(reg: Registry, ids: seq<nat>): set<Fd> {
    set id | id in ids && id in reg.fdById :: reg.fdById[id]
  }

  /** ban_ids: mark, tell everyone who is not banned, then shut down the sockets of the newly banned. */
  function BanApplied(s: Server, ids: seq<nat>): Server {
    var newIds := NewlyBanned(ids, s.banned);
    var marked := Marked(s, ids);
    if newIds == [] then marked
    else SentAll(marked, Unbanned(marked), BannedIds(newIds)).(shut := s.shut + FdsOf(s.reg, newIds))
  }

  // ----- steps and runs -----

  ghost predicate Valid(s: Server) {
    && s.reg.Valid()
    && s.outbox.Keys == s.reg.clients.Keys
    && (forall fd :: fd in s.reg.clients ==> fd >= 0)
    && ValidIdPool(s)
    && ShutAreBanned(s)
  }

  /** The client on the connection is banned. */
  predicate Muted(s: Server, fd: Fd) {
    fd in s.reg.clients && s.reg.clients[fd].id in s.banned
  }

  /** The connections that have been shut down are exactly those of banned clients. */
  ghost predicate ShutAreBanned(s: Server) {
    forall fd :: fd in s.shut <==> Muted(s, fd)
  }

  /** The ids in [1, nextId) split into active, free and banned, and the free ones are neither of the others. */
  ghost predicate ValidIdPool(s: Server) {
    && 1 <= s.nextId < U32_LIMIT
    && 0 !in s.banned
    && (forall id :: id in s.reg.fdById ==> 1 <= id < s.nextId)
    && (forall id :: id in s.free ==> 1 <= id < s.nextId && id !in s.reg.fdById && id !in s.banned)
    && (forall id :: 1 <= id < s.nextId ==> id in s.reg.fdById || id in s.free || id in s.banned)
  }

  /** Some id that can be handed out without wrapping the counter is neither active nor banned. */
  ghost predicate HasSpareId(s: Server) {
    exists id: nat :: 1 <= id <= MAX_CLIENT_ID && id !in s.reg.fdById && id !in s.banned
  }

  /** What receiving on a connection can bring: module Transport shows that the decoder keeps to it. */
  ghost predicate CanArrive(incoming: Incoming) {
    && (incoming.Received? ==> WellFormed(incoming.message))
    && (incoming.Malformed? ==> |incoming.what| <= MAX_U16_COUNT)
  }

  /**
   * What the surroundings of the server guarantee: accept returns a descriptor that is not open, the
   * ids are not exhausted, a received message is one the decoder can return, and a ban command's new
   * ids fit one BannedIds message (encode_banned_ids throws otherwise, which ends the process).
   */
  ghost predicate Enabled(s: Server, e: Event) {
    match e
    case Accept(fd) => fd >= 0 && fd !in s.reg.clients && HasSpareId(s)
    case Hangup(fd) => fd in s.reg.clients
    case Data(fd, incoming) => fd in s.reg.clients && CanArrive(incoming)
    case Ban(ids) => |NewlyBanned(ids, s.banned)| <= MAX_U16_COUNT && forall i :: 0 <= i < |ids| ==> ids[i] < U32_LIMIT
  }

  ghost function Step(s: Server, e: Event): Server
    requires Valid(s)
  {
    match e
    case Accept(fd) => Accepted(s, fd)
    case Hangup(fd) => Removed(s, fd)
    case Data(fd, incoming) => DataHandled(s, fd, incoming)
    case Ban(ids) => BanApplied(s, ids)
  }

  function Initial(): Server {
    Server(Registry(map[], map[], map[]), 1, {}, {}, map[], {})
  }
}
