/** server/viewmodel: the server as objects that are updated in place, against the steps of module Server. */
module ServerViewModel {
  import opened Bytes
  import opened Messages
  import opened Registry
  import opened Server
  import opened ServerRuns
  import opened Codec
  import Protocol
  import CR = ClientRegistry

  /** The transport's side of the open connections: what has been written to each, and which are shut down. */
  class MessageTransport {
    var outbox: Outbox
    var shut: set<Fd>

    constructor ()
      ensures outbox == map[] && shut == {}
    {
      outbox, shut := map[], {};
    }

    method Open(fd: Fd)
      modifies this
      ensures outbox == old(outbox)[fd := []] && shut == old(shut) - {fd}
    {
      outbox, shut := outbox[fd := []], shut - {fd};
    }

    /** send: on a socket that has been shut down it fails. */
    method Send(fd: Fd, m: AppMessage) returns (ok: bool)
      modifies this`outbox
      ensures ok == (fd !in shut) && outbox == if ok then Pushed(old(outbox), fd, m) else old(outbox)
    {
      ok := fd !in shut;
      if ok {
        outbox := outbox[fd := (if fd in outbox then outbox[fd] else []) + [m]];
      }
    }

    method Shutdown(fd: Fd)
      modifies this`shut
      ensures shut == old(shut) + {fd}
    {
      shut := shut + {fd};
    }

    method Close(fd: Fd)
      modifies this
      ensures outbox == old(outbox) - {fd} && shut == old(shut) - {fd}
    {
      outbox, shut := outbox - {fd}, shut - {fd};
    }
  }

  // ----- sending to several -----

  lemma PushedToNone(outbox: Outbox, m: AppMessage)
    ensures PushedAll(outbox, {}, m) == outbox
  {
  }

  lemma PushedOneMore(outbox: Outbox, targets: set<Fd>, fd: Fd, m: AppMessage)
    requires fd !in targets
    ensures Pushed(PushedAll(outbox, targets, m), fd, m) == PushedAll(outbox, targets + {fd}, m)
  {
  }

  lemma FirstPush(outbox: Outbox, fd: Fd, m: AppMessage)
    ensures Pushed(outbox[fd := []], fd, m) == outbox[fd := [m]]
  {
    var none: seq<AppMessage> := [];
    assert none + [m] == [m];
  }

  /** The descriptors of a list that a loop has sent to. */
  ghost function Chosen(fds: seq<Fd>, wanted: set<Fd>): set<Fd> {
    set fd | fd in fds && fd in wanted
  }

  lemma ChosenOneMore(fds: seq<Fd>, i: nat, wanted: set<Fd>)
    requires i < |fds| && forall j, k :: 0 <= j < k < |fds| ==> fds[j] != fds[k]
    ensures Chosen(fds[..i + 1], wanted) == Chosen(fds[..i], wanted) + (if fds[i] in wanted then {fds[i]} else {})
    ensures fds[i] !in Chosen(fds[..i], wanted)
  {
    assert fds[..i + 1] == fds[..i] + [fds[i]];
  }

  lemma ChosenAll(fds: seq<Fd>, wanted: set<Fd>)
    requires forall fd :: fd in wanted ==> fd in fds
    ensures Chosen(fds[..|fds|], wanted) == wanted
  {
    assert fds[..|fds|] == fds;
    assert forall fd :: fd in wanted ==> fd in Chosen(fds, wanted);
    assert Chosen(fds, wanted) == wanted;
  }

  lemma LoopStarts(outbox: Outbox, fds: seq<Fd>, wanted: set<Fd>, m: AppMessage)
    ensures PushedAll(outbox, Chosen(fds[..0], wanted), m) == outbox
  {
    assert Chosen(fds[..0], wanted) == {};
    PushedToNone(outbox, m);
  }

  /** One turn of a loop that sends m to the wanted descriptors. */
  lemma LoopGoesOn(outbox: Outbox, fds: seq<Fd>, i: nat, wanted: set<Fd>, m: AppMessage)
    requires i < |fds| && forall j, k :: 0 <= j < k < |fds| ==> fds[j] != fds[k]
    ensures var sent := PushedAll(outbox, Chosen(fds[..i], wanted), m);
            PushedAll(outbox, Chosen(fds[..i + 1], wanted), m) == if fds[i] in wanted then Pushed(sent, fds[i], m) else sent
  {
    hide PushedAll;
    ChosenOneMore(fds, i, wanted);
    if fds[i] in wanted {
      PushedOneMore(outbox, Chosen(fds[..i], wanted), fds[i], m);
    } else {
      assert Chosen(fds[..i + 1], wanted) == Chosen(fds[..i], wanted);
    }
  }

  /**
   * A handler that returns normally has done what module Server says; one that throws has changed
   * nothing, and the catch block's Error reply is what module Server says.
   */
  ghost predicate Outcome(s: Server, fd: Fd, expected: Server, thrown: Option<seq<Byte>>, s': Server) {
    match thrown
    case None => s' == expected
    case Some(what) => s' == s && |what| <= MAX_U16_COUNT && expected == ErrorReplied(s, fd, what)
  }

  class ServerViewModel {
    const registry: CR.ClientRegistry
    const transport: MessageTransport
    var nextId: nat
    var freeIds: set<nat>
    var bannedIds: set<nat>

    ghost function View(): Server
      reads this, registry, transport
    {
      Server(registry.View(), nextId, freeIds, bannedIds, transport.outbox, transport.shut)
    }

    constructor ()
      ensures View() == Initial() && fresh(registry) && fresh(transport)
    {
      registry := new CR.ClientRegistry();
      transport := new MessageTransport();
      nextId, freeIds, bannedIds := 1, {}, {};
    }

    // ----- the id allocator -----

    /** allocate_client_id: free ids from the smallest up, dropping banned ones; then the counter. */
    method AllocateClientId() returns (id: nat)
      requires nextId < U32_LIMIT && 0 !in bannedIds
      modifies this`nextId, this`freeIds
      ensures id == AllocatedId(old(View())) && View() == Allocated(old(View()))
    {
      ghost var s := View();
      while freeIds != {}
        invariant View() == s.(free := freeIds) && freeIds <= s.free
        invariant forall f :: f in s.free && f !in freeIds ==> f in s.banned
        invariant forall f, k :: f in s.free && f !in freeIds && k in freeIds ==> f < k
        decreases |freeIds|
      {
        MinExists(freeIds);
        id :| id in freeIds && forall k :: k in freeIds ==> id <= k;
        freeIds := freeIds - {id};
        if id !in bannedIds {
          FirstFree(s, id, freeIds);
          return;
        }
      }
      assert s.free - s.banned == {};
      while nextId in bannedIds
        invariant View() == s.(free := {}, nextId := nextId) && nextId < U32_LIMIT
        invariant SkipBanned(nextId, bannedIds) == SkipBanned(s.nextId, s.banned)
        decreases if nextId == 0 then 0 else U32_LIMIT - nextId
      {
        nextId := (nextId + 1) % U32_LIMIT;
      }
      id := nextId;
      nextId := (nextId + 1) % U32_LIMIT;
    }

    method ReleaseClientId(id: nat)
      modifies this`freeIds
      ensures View() == Released(old(View()), id)
    {
      if id in bannedIds {
        return;
      }
      freeIds := freeIds + {id};
    }

    // ----- presence -----

    /** PresenceBroadcaster::broadcast: everyone but one. */
    method Broadcast(m: AppMessage, exceptFd: Fd)
      requires Encode(m).Ok?
      modifies transport`outbox
      ensures View() == SentAll(old(View()), registry.clientsByFd.Keys - {exceptFd}, m)
    {
      var fds := registry.AllFds();
      ghost var wanted := registry.clientsByFd.Keys - {exceptFd} - transport.shut;
      LoopStarts(transport.outbox, fds, wanted, m);
      for i := 0 to |fds|
        invariant transport.outbox == PushedAll(old(transport.outbox), Chosen(fds[..i], wanted), m)
      {
        LoopGoesOn(old(transport.outbox), fds, i, wanted, m);
        if fds[i] != exceptFd {
          var ok := transport.Send(fds[i], m);
        }
      }
      ChosenAll(fds, wanted);
    }

    // ----- handlers -----

    /** Encode and send: what the encoder throws is thrown before anything is sent. */
    method SendEncoded(fd: Fd, m: AppMessage) returns (thrown: Option<seq<Byte>>)
      modifies transport`outbox
      ensures match Encode(m)
              case Thrown(what) => thrown == Some(what) && View() == old(View())
              case Ok(_) => thrown == None && View() == Sent(old(View()), fd, m)
    {
      var payload := Encode(m);
      if payload.Thrown? {
        return Some(payload.what);
      }
      var ok := transport.Send(fd, m);
      return None;
    }

    method SendError(fd: Fd, text: seq<Byte>) returns (thrown: Option<seq<Byte>>)
      modifies transport`outbox
      ensures Outcome(old(View()), fd, ErrorReplied(old(View()), fd, text), thrown, View())
    {
      thrown := SendEncoded(fd, Error(text));
    }

    /** RegisterMessageHandler::handle. */
    method HandleRegister(fd: Fd, nickname: seq<Byte>) returns (thrown: Option<seq<Byte>>)
      requires |nickname| <= MAX_U16_COUNT
      modifies registry, transport`outbox
      ensures Outcome(old(View()), fd, Registered(old(View()), fd, nickname), thrown, View())
    {
      if fd !in registry.clientsByFd {
        return None;
      }
      var id := registry.clientsByFd[fd].id;
      if nickname == [] {
        thrown := SendError(fd, Text("Nickname cannot be empty"));
      } else if nickname == BroadcastRecipient() {
        thrown := SendError(fd, Text("Nickname 'all' is reserved"));
      } else if nickname in registry.idByNickname && registry.idByNickname[nickname] != id {
        thrown := SendError(fd, Text("Nickname already taken"));
      } else {
        registry.SetNickname(fd, nickname);
        assert registry.clientsByFd.Keys == old(registry.clientsByFd.Keys);
        Broadcast(UserJoined(id, nickname), fd);
        thrown := None;
      }
    }

    /** The broadcast loop of ChatMessageHandler and OpaqueUnicastHandler: everyone else who is not banned. */
    method RelayToPeers(fd: Fd, m: AppMessage)
      modifies transport`outbox
      ensures View() == SentAll(old(View()), Peers(old(View()), fd), m)
    {
      hide PushedAll, Pushed, Chosen;
      var fds := registry.AllFds();
      ghost var wanted := Peers(View(), fd) - transport.shut;
      LoopStarts(transport.outbox, fds, wanted, m);
      for i := 0 to |fds|
        invariant transport.outbox == PushedAll(old(transport.outbox), Chosen(fds[..i], wanted), m)
      {
        LoopGoesOn(old(transport.outbox), fds, i, wanted, m);
        if fds[i] != fd && registry.clientsByFd[fds[i]].id !in bannedIds {
          var ok := transport.Send(fds[i], m);
        }
      }
      ChosenAll(fds, wanted);
    }

    /** ChatMessageHandler::handle and OpaqueUnicastHandler::handle, which differ in the type they deliver. */
    method HandleRelay(fd: Fd, chat: ChatPayload, relay: Relay) returns (thrown: Option<seq<Byte>>)
      requires |chat.text| <= MAX_U16_COUNT
      modifies transport`outbox
      ensures Outcome(old(View()), fd, Relayed(old(View()), fd, chat, relay), thrown, View())
    {
      if fd !in registry.clientsByFd || registry.clientsByFd[fd].id in bannedIds {
        return None;
      }
      var m := Wrapped(relay, registry.clientsByFd[fd].id, chat.text);
      var view := Registry(registry.clientsByFd, registry.fdById, registry.idByNickname);
      var toLabel := view.RecipientLabel(chat);
      if toLabel.Thrown? {
        return Some(toLabel.what);
      }
      if chat.recipientTag == RECIPIENT_BROADCAST {
        RelayToPeers(fd, m);
        return None;
      }
      var target := view.ResolveRecipient(chat);
      assert target.Ok?;  // a nickname that does not decode has already thrown
      if target.value.None? {
        thrown := SendError(fd, Text("Unknown recipient: ") + toLabel.value);
      } else if target.value.value in bannedIds {
        thrown := SendError(fd, Text("Recipient banned: ") + toLabel.value);
      } else if target.value.value !in registry.fdById {
        thrown := SendError(fd, Text("Recipient offline: ") + toLabel.value);
      } else {
        thrown := SendEncoded(registry.fdById[target.value.value], m);
      }
    }

    /** ListUsersMessageHandler::handle. */
    method HandleListUsers(fd: Fd) returns (thrown: Option<seq<Byte>>)
      requires registry.View().Valid()
      modifies transport`outbox
      ensures Outcome(old(View()), fd, UsersListed(old(View()), fd), thrown, View())
    {
      var users := registry.CollectUsers();
      NamesFit(registry.View(), users);
      var payload := Protocol.EncodeUsersList(users);
      if payload.Thrown? {
        return Some(payload.what);
      }
      var ok := transport.Send(fd, UsersList(users));
      return None;
    }

    /** MessageDispatcher::dispatch. */
    method Dispatch(fd: Fd, m: AppMessage) returns (thrown: Option<seq<Byte>>)
      requires registry.View().Valid() && WellFormed(m)
      modifies registry, transport`outbox
      ensures Outcome(old(View()), fd, Dispatched(old(View()), fd, m), thrown, View())
    {
      match m
      case Register(nickname) => thrown := HandleRegister(fd, nickname);
      case Chat(chat) => thrown := HandleRelay(fd, chat, ChatRelay);
      case KeyOffer(chat) => thrown := HandleRelay(fd, chat, KeyRelay);
      case RoomKeyOffer(chat) => thrown := HandleRelay(fd, chat, RoomRelay);
      case ListUsers => thrown := HandleListUsers(fd);
      case _ => thrown := SendError(fd, Text("Unsupported message type"));
    }

    // ----- connections -----

    method RemoveClient(fd: Fd)
      requires Valid(View())
      modifies this`freeIds, registry, transport
      ensures View() == Removed(old(View()), fd)
    {
      ghost var s := View();
      var removed := registry.Remove(fd);
      if removed.None? {
        return;
      }
      ReleaseClientId(removed.value.id);
      transport.Close(fd);
      RecordFits(s.reg, fd);
      Broadcast(UserLeft(removed.value.id, removed.value.nickname), -1);
      assert registry.clientsByFd.Keys - {-1} == registry.clientsByFd.Keys;
    }

    /** accept_client, after accept has returned fd. */
    method AcceptClient(fd: Fd)
      requires nextId < U32_LIMIT && 0 !in bannedIds
      modifies this`nextId, this`freeIds, registry, transport
      ensures View() == Accepted(old(View()), fd)
    {
      ghost var s := View();
      var createRoom := registry.clientsByFd == map[];
      var id := AllocateClientId();
      var record := registry.Add(fd, id);
      transport.Open(fd);
      var ok := transport.Send(fd, AssignId(id, createRoom));
      FirstPush(old(transport.outbox), fd, AssignId(id, createRoom));
      assert registry.View() == s.reg.Add(fd, id);
      hide AllocatedId, Allocated;
      Broadcast(UserJoined(id, []), fd);
    }

    /** handle_client_data: incoming is what transport_->receive brings. */
    method HandleClientData(fd: Fd, incoming: Incoming)
      requires Valid(View()) && Enabled(View(), Data(fd, incoming))
      modifies this`freeIds, registry, transport
      ensures View() == Step(old(View()), Data(fd, incoming))
    {
      if registry.clientsByFd[fd].id in bannedIds || incoming.Closed? {
        RemoveClient(fd);
        return;
      }
      var thrown: Option<seq<Byte>>;
      if incoming.Malformed? {
        thrown := Some(incoming.what);
      } else {
        thrown := Dispatch(fd, incoming.message);
      }
      if thrown.Some? {
        var ok := transport.Send(fd, Error(thrown.value));
      }
    }

    // ----- bans -----

    method BroadcastBannedIds(ids: seq<nat>) returns (thrown: Option<seq<Byte>>)
      modifies transport`outbox
      ensures if |ids| > MAX_U16_COUNT then thrown == Some(Text("Too many banned ids")) && View() == old(View())
              else thrown == None && View() == SentAll(old(View()), Unbanned(old(View())), BannedIds(ids))
    {
      hide PushedAll, Pushed, Chosen;
      var payload := Protocol.EncodeBannedIds(ids);
      if payload.Thrown? {
        return Some(payload.what);
      }
      var fds := registry.AllFds();
      ghost var wanted := Unbanned(View()) - transport.shut;
      LoopStarts(transport.outbox, fds, wanted, BannedIds(ids));
      for i := 0 to |fds|
        invariant transport.outbox == PushedAll(old(transport.outbox), Chosen(fds[..i], wanted), BannedIds(ids))
      {
        LoopGoesOn(old(transport.outbox), fds, i, wanted, BannedIds(ids));
        if registry.clientsByFd[fds[i]].id !in bannedIds {
          var ok := transport.Send(fds[i], BannedIds(ids));
        }
      }
      ChosenAll(fds, wanted);
      return None;
    }

    /** The first loop of ban_ids. */
    method MarkBanned(ids: seq<nat>) returns (newIds: seq<nat>)
      modifies this`freeIds, this`bannedIds
      ensures newIds == NewlyBanned(ids, old(bannedIds))
      ensures bannedIds == old(bannedIds) + NonZero(ids) && freeIds == old(freeIds) - NonZero(ids)
    {
      hide NewlyBanned, NonZero;
      newIds := [];
      NothingBanned(bannedIds);
      ghost var all := NewlyBanned(ids, bannedIds);
      assert ids[0..] == ids && ids[..0] == [] && [] + all == all;
      for i := 0 to |ids|
        invariant newIds + NewlyBanned(ids[i..], bannedIds) == all
        invariant bannedIds == old(bannedIds) + NonZero(ids[..i]) && freeIds == old(freeIds) - NonZero(ids[..i])
      {
        NonZeroStep(ids, i);
        assert ids[i..][0] == ids[i] && ids[i..][1..] == ids[i + 1..];
        NewlyBannedStep(newIds, ids[i..], bannedIds);
        if ids[i] != 0 {
          if ids[i] !in bannedIds {
            newIds := newIds + [ids[i]];
          }
          bannedIds := bannedIds + {ids[i]};
          freeIds := freeIds - {ids[i]};
        }
      }
      assert ids[..|ids|] == ids && ids[|ids|..] == [] && newIds + [] == newIds;
      NothingBanned(bannedIds);
    }

    /** ban_ids; encode_banned_ids throws when more than 65535 ids are new, after they have been banned. */
    method BanIds(ids: seq<nat>) returns (thrown: Option<seq<Byte>>)
      modifies this`freeIds, this`bannedIds, transport
      ensures thrown == if |NewlyBanned(ids, old(bannedIds))| <= MAX_U16_COUNT then None else Some(Text("Too many banned ids"))
      ensures View() == if thrown.None? then BanApplied(old(View()), ids) else Marked(old(View()), ids)
    {
      var newIds := MarkBanned(ids);
      if newIds == [] {
        return None;
      }
      thrown := BroadcastBannedIds(newIds);
      if thrown.None? {
        ShutDown(newIds);
      }
    }

    /** The second loop of ban_ids: the sockets of those who are connected are shut down. */
    method ShutDown(ids: seq<nat>)
      modifies transport`shut
      ensures View() == old(View()).(shut := old(transport.shut) + FdsOf(registry.View(), ids))
    {
      for i := 0 to |ids|
        invariant transport.shut == old(transport.shut) + FdsOf(registry.View(), ids[..i])
      {
        assert ids[..i + 1] == ids[..i] + [ids[i]];
        if ids[i] in registry.fdById {
          transport.Shutdown(registry.fdById[ids[i]]);
        }
      }
      assert ids[..|ids|] == ids;
    }
  }

  lemma NothingBanned(banned: set<nat>)
    ensures NewlyBanned([], banned) == [] && NonZero([]) == {}
  {
  }

  lemma NonZeroStep(ids: seq<nat>, i: nat)
    requires i < |ids|
    ensures NonZero(ids[..i + 1]) == NonZero(ids[..i]) + (if ids[i] != 0 then {ids[i]} else {})
  {
    assert ids[..i + 1] == ids[..i] + [ids[i]];
  }

  lemma NewlyBannedStep(newIds: seq<nat>, ids: seq<nat>, banned: set<nat>)
    requires ids != []
    ensures newIds + NewlyBanned(ids, banned) ==
            if ids[0] == 0 then newIds + NewlyBanned(ids[1..], banned)
            else (newIds + (if ids[0] in banned then [] else [ids[0]])) + NewlyBanned(ids[1..], banned + {ids[0]})
  {
    if ids[0] in banned {
      assert banned + {ids[0]} == banned;
      assert newIds + [] == newIds;
    }
  }

  /** Nicknames in the registry fit their wire field, so only the number of users can be too much. */
  lemma NamesFit(r: Registry, users: seq<UserInfo>)
    requires r.Valid() && users == SortedUsers(r.Names())
    ensures if |users| > MAX_U16_COUNT then Encode(UsersList(users)) == Thrown(Text("Too many users"))
            else Encode(UsersList(users)).Ok?
  {
    hide SortedUsers, EncodeUsers;
    SortedUsersContents(r.Names());
    forall i | 0 <= i < |users|
      ensures |users[i].nickname| <= MAX_U16_COUNT
    {
      RecordFits(r, r.fdById[users[i].id]);
    }
    UsersFit(users);
  }

  lemma MinExists(s: set<nat>)
    requires s != {}
    ensures exists id :: id in s && forall k :: k in s ==> id <= k
  {
    var m := Min(s);
  }

  /** Taking the smallest remaining free id that is not banned, after dropping smaller banned ones. */
  lemma FirstFree(s: Server, id: nat, left: set<nat>)
    requires s.nextId < U32_LIMIT && 0 !in s.banned
    requires id in s.free && id !in s.banned && id !in left && left <= s.free
    requires forall f :: f in s.free && f !in left && f != id ==> f in s.banned && f < id
    requires forall k :: k in left ==> id < k
    ensures id == AllocatedId(s) && s.(free := left) == Allocated(s)
  {
    assert id in s.free - s.banned;
    assert Min(s.free - s.banned) == id;
    assert forall f :: f in s.free && f > id ==> f in left;
    assert left == Allocated(s).free;
  }
}
