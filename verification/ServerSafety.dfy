/** What every step of the server keeps: the registry's indexes, the id pool and the outboxes' shape. */
module ServerSafety {
  import opened Bytes
  import opened Messages
  import opened Registry
  import opened Server

  // ----- the allocator refines "smallest id that is neither active nor banned" -----

  lemma {:induction false} SkipBannedIsNext(n: nat, banned: set<nat>)
    requires 1 <= n < U32_LIMIT && 0 !in banned
    ensures var id := SkipBanned(n, banned);
            if id == 0 then forall k :: n <= k < U32_LIMIT ==> k in banned
            else n <= id && forall k :: n <= k < id ==> k in banned
    decreases U32_LIMIT - n
  {
    if n in banned && n + 1 < U32_LIMIT {
      SkipBannedIsNext(n + 1, banned);
    }
  }

  /** allocate_client_id returns exactly the smallest id from 1 on that is neither active nor banned. */
  lemma AllocatesSmallest(s: Server)
    requires ValidIdPool(s) && HasSpareId(s)
    ensures var id := AllocatedId(s);
            && 1 <= id <= MAX_CLIENT_ID
            && id !in s.reg.fdById && id !in s.banned
            && forall k :: 1 <= k < id ==> k in s.reg.fdById || k in s.banned
  {
    var id := AllocatedId(s);
    assert s.free - s.banned == s.free;
    if s.free == {} {
      SkipBannedIsNext(s.nextId, s.banned);
      var spare: nat :| 1 <= spare <= MAX_CLIENT_ID && spare !in s.reg.fdById && spare !in s.banned;
      assert spare >= s.nextId;
    }
  }

  /** Handing out an id keeps the pool split into active, free and banned ids. */
  lemma AllocationKeepsPool(s: Server, fd: Fd)
    requires ValidIdPool(s) && HasSpareId(s)
    ensures ValidIdPool(Allocated(s).(reg := s.reg.Add(fd, AllocatedId(s))))
  {
    AllocatesSmallest(s);
    assert s.free - s.banned == s.free;
    var id := AllocatedId(s);
    if s.free == {} {
      assert Allocated(s).nextId == id + 1;
      SkipBannedIsNext(s.nextId, s.banned);
    } else {
      forall f | f in s.free
        ensures f == id || f in Allocated(s).free
      {
        assert id <= f;
      }
    }
  }

  /**
   * Without a spare id the next accept hands out 0, or the last 32-bit id with the counter wrapping to 0;
   * either way the pool stops being a partition.
   */
  lemma ExhaustedAllocationWraps(s: Server, fd: Fd)
    requires ValidIdPool(s) && !HasSpareId(s)
    ensures var id, next := AllocatedId(s), Allocated(s).nextId;
            (id == 0 && next == 1) || (id == U32_LIMIT - 1 && next == 0)
    ensures !ValidIdPool(Allocated(s).(reg := s.reg.Add(fd, AllocatedId(s))))
  {
    if f: nat :| f in s.free {
      assert false;
    }
    assert s.free - s.banned == {};
    SkipBannedIsNext(s.nextId, s.banned);
    var id := AllocatedId(s);
    if id != 0 {
      assert s.nextId <= id && id !in s.banned && id !in s.reg.fdById;
      assert id == MAX_CLIENT_ID + 1;
    } else {
      assert 0 in s.reg.Add(fd, id).fdById;
    }
  }

  /** Once the counter has wrapped, the ids handed out are 0 and then the smallest one already in use. */
  lemma WrappedCounterRepeats(s: Server, used: nat)
    requires s.nextId <= 1 && s.free == {} && 0 !in s.banned && !HasSpareId(s)
    requires 1 <= used <= MAX_CLIENT_ID && used !in s.banned
    ensures if s.nextId == 0 then AllocatedId(s) == 0 && Allocated(s).nextId == 1
            else AllocatedId(s) in s.reg.fdById && forall k :: 1 <= k < AllocatedId(s) ==> k in s.banned
  {
    assert s.free - s.banned == {};
    if s.nextId == 1 {
      SkipBannedIsNext(1, s.banned);
    }
  }

  lemma AcceptedPool(s: Server, fd: Fd)
    requires ValidIdPool(s)
    ensures ValidIdPool(Accepted(s, fd)) <==> HasSpareId(s)
  {
    var pool := Allocated(s).(reg := s.reg.Add(fd, AllocatedId(s)));
    assert Accepted(s, fd) == pool.(outbox := Accepted(s, fd).outbox, shut := s.shut - {fd});
    if HasSpareId(s) {
      AllocationKeepsPool(s, fd);
    } else {
      ExhaustedAllocationWraps(s, fd);
    }
  }

  lemma AcceptKeepsValid(s: Server, fd: Fd)
    requires Valid(s) && fd >= 0 && fd !in s.reg.clients && HasSpareId(s)
    ensures Valid(Accepted(s, fd))
  {
    hide Registry.ValidNames, Accepted;
    var s' := Accepted(s, fd);
    AcceptedShape(s, fd);
    AcceptedPool(s, fd);
    AllocatesSmallest(s);
    AddKeepsValid(s.reg, fd, AllocatedId(s));
    AcceptKeepsShut(s, fd, s');
  }

  lemma AcceptedShape(s: Server, fd: Fd)
    requires s.nextId < U32_LIMIT && 0 !in s.banned && s.outbox.Keys == s.reg.clients.Keys
    ensures var s' := Accepted(s, fd);
            && s'.reg == s.reg.Add(fd, AllocatedId(s)) && s'.banned == s.banned
            && s'.shut == s.shut - {fd} && s'.outbox.Keys == s.outbox.Keys + {fd}
  {
    hide AllocatedId;
  }

  /** A new client is not banned, so its connection is not one of those that are shut. */
  lemma AcceptKeepsShut(s: Server, fd: Fd, s': Server)
    requires ShutAreBanned(s) && fd !in s.reg.clients && s'.shut == s.shut - {fd} && s'.banned == s.banned
    requires s'.reg.clients.Keys == s.reg.clients.Keys + {fd} && s'.reg.clients[fd].id !in s.banned
    requires forall g :: g in s.reg.clients ==> s'.reg.clients[g] == s.reg.clients[g]
    ensures ShutAreBanned(s')
  {
  }

  /**
   * Accepting a new connection keeps the server valid exactly when an id below the last counter value
   * is still unused: otherwise the 32-bit counter wraps.
   */
  lemma AcceptValidIff(s: Server, fd: Fd)
    requires Valid(s) && fd >= 0 && fd !in s.reg.clients
    ensures Valid(Accepted(s, fd)) <==> HasSpareId(s)
  {
    if HasSpareId(s) {
      AcceptKeepsValid(s, fd);
    } else {
      AcceptedPool(s, fd);
    }
  }

  lemma {:induction false} RangeFits(k: nat, s: set<nat>)
    requires forall i :: 1 <= i <= k ==> i in s
    ensures k <= |s|
  {
    if k > 0 {
      assert forall i :: 1 <= i <= k - 1 ==> i in s - {k};
      RangeFits(k - 1, s - {k});
    }
  }

  /** As long as the active and the banned ids together are fewer than 2^32 - 2, an id is left. */
  lemma FewIdsLeaveASpare(s: Server)
    requires |s.reg.fdById.Keys + s.banned| < MAX_CLIENT_ID
    ensures HasSpareId(s)
  {
    if !HasSpareId(s) {
      var used := s.reg.fdById.Keys + s.banned;
      forall i: nat | 1 <= i <= MAX_CLIENT_ID
        ensures i in used
      {
      }
      RangeFits(MAX_CLIENT_ID, used);
    }
  }

  // ----- every step keeps the server valid -----

  lemma RemovedKeepsValid(s: Server, fd: Fd)
    requires Valid(s) && fd in s.reg.clients
    ensures Valid(Removed(s, fd))
  {
    hide ValidIdPool, ShutAreBanned, Registry.ValidIds, Registry.ValidNames;
    RemoveKeepsValid(s.reg, fd);
    RemoveKeepsPool(s, fd);
    RemoveKeepsShut(s, fd);
    var s' := Removed(s, fd);
    assert s'.reg.clients.Keys == s.reg.clients.Keys - {fd};
  }

  lemma RemoveKeepsPool(s: Server, fd: Fd)
    requires s.reg.ValidIds() && ValidIdPool(s) && fd in s.reg.clients
    ensures ValidIdPool(Removed(s, fd))
  {
    hide PushedAll;
    var s' := Removed(s, fd);
    var id := s.reg.clients[fd].id;
    assert s'.reg.fdById.Keys == s.reg.fdById.Keys - {id};
    assert s'.nextId == s.nextId && s'.banned == s.banned;
    assert s'.free == if id in s.banned then s.free else s.free + {id};
  }

  lemma RemoveKeepsShut(s: Server, fd: Fd)
    requires ShutAreBanned(s) && fd in s.reg.clients
    ensures ShutAreBanned(Removed(s, fd))
  {
    hide PushedAll;
  }

  lemma RegisteredKeepsValid(s: Server, fd: Fd, nickname: seq<Byte>)
    requires Valid(s) && fd in s.reg.clients && |nickname| <= MAX_U16_COUNT
    ensures Valid(Registered(s, fd, nickname))
  {
    hide Valid, ErrorReplied;
    if MayTakeNickname(s.reg, fd, nickname) {
      RenamedKeepsValid(s, fd, nickname);
    } else {
      ErrorKeepsValid(s, fd, Text("Nickname cannot be empty"));
      ErrorKeepsValid(s, fd, Text("Nickname 'all' is reserved"));
      ErrorKeepsValid(s, fd, Text("Nickname already taken"));
    }
  }

  lemma ErrorKeepsValid(s: Server, fd: Fd, text: seq<Byte>)
    requires Valid(s) && fd in s.reg.clients
    ensures Valid(ErrorReplied(s, fd, text))
  {
    OnlySendsKeepsValid(s, ErrorReplied(s, fd, text));
  }

  lemma RenamedKeepsValid(s: Server, fd: Fd, nickname: seq<Byte>)
    requires Valid(s) && fd in s.reg.clients && |nickname| <= MAX_U16_COUNT && MayTakeNickname(s.reg, fd, nickname)
    ensures Valid(Registered(s, fd, nickname))
  {
    hide Registry.ValidIds, Registry.ValidNames, PushedAll;
    SetNicknameKeepsValid(s.reg, fd, nickname);
    PushedKeys(s.outbox, s.reg.clients.Keys - {fd} - s.shut, UserJoined(s.reg.clients[fd].id, nickname));
    var s' := Registered(s, fd, nickname);
    assert s'.reg.clients.Keys == s.reg.clients.Keys && s'.reg.fdById == s.reg.fdById;
  }

  lemma PushedKeys(outbox: Outbox, targets: set<Fd>, m: AppMessage)
    requires targets <= outbox.Keys
    ensures PushedAll(outbox, targets, m).Keys == outbox.Keys
  {
  }

  /** The step changed nothing but the messages handed to open connections. */
  ghost predicate OnlySends(s: Server, s': Server) {
    s' == s.(outbox := s'.outbox) && s'.outbox.Keys == s.outbox.Keys
  }

  lemma OnlySendsKeepsValid(s: Server, s': Server)
    requires Valid(s) && OnlySends(s, s')
    ensures Valid(s')
  {
  }

  lemma RelayedOnlySends(s: Server, fd: Fd, chat: ChatPayload, relay: Relay)
    requires s.reg.ValidIds() && s.outbox.Keys == s.reg.clients.Keys && fd in s.reg.clients
    ensures OnlySends(s, Relayed(s, fd, chat, relay))
  {
  }

  lemma DispatchedOnlySends(s: Server, fd: Fd, m: AppMessage)
    requires s.reg.ValidIds() && s.outbox.Keys == s.reg.clients.Keys && fd in s.reg.clients && !m.Register?
    ensures OnlySends(s, Dispatched(s, fd, m))
  {
    hide Relayed, UsersListed, ErrorReplied, OnlySends, Registry.ValidIds;
    if m.Chat? {
      RelayedOnlySends(s, fd, m.chat, ChatRelay);
    } else if m.KeyOffer? {
      RelayedOnlySends(s, fd, m.chat, KeyRelay);
    } else if m.RoomKeyOffer? {
      RelayedOnlySends(s, fd, m.chat, RoomRelay);
    } else if m.ListUsers? {
      ListedOnlySends(s, fd);
    } else {
      ErrorOnlySends(s, fd, Text("Unsupported message type"));
    }
  }

  lemma ListedOnlySends(s: Server, fd: Fd)
    requires s.reg.ValidIds() && fd in s.outbox
    ensures OnlySends(s, UsersListed(s, fd))
  {
    hide SortedUsers, Registry.ValidIds, OnlySends, Sent;
    SentOnlySends(s, fd, UsersList(SortedUsers(s.reg.Names())));
    ErrorOnlySends(s, fd, Text("Too many users"));
  }

  lemma ErrorOnlySends(s: Server, fd: Fd, text: seq<Byte>)
    requires fd in s.outbox
    ensures OnlySends(s, ErrorReplied(s, fd, text))
  {
    SentOnlySends(s, fd, Error(if |text| <= MAX_U16_COUNT then text else Text("String too long")));
  }

  lemma SentOnlySends(s: Server, fd: Fd, m: AppMessage)
    requires fd in s.outbox
    ensures OnlySends(s, Sent(s, fd, m))
  {
  }

  lemma DispatchedKeepsValid(s: Server, fd: Fd, m: AppMessage)
    requires Valid(s) && fd in s.reg.clients && WellFormed(m)
    ensures Valid(Dispatched(s, fd, m))
  {
    if m.Register? {
      RegisteredKeepsValid(s, fd, m.nickname);
    } else {
      DispatchedOnlySends(s, fd, m);
      OnlySendsKeepsValid(s, Dispatched(s, fd, m));
    }
  }

  lemma BanKeepsValid(s: Server, ids: seq<nat>)
    requires Valid(s)
    ensures Valid(BanApplied(s, ids))
  {
    hide Registry.ValidIds, Registry.ValidNames, PushedAll, NewlyBanned;
    BanShuts(s, ids);
    var marked := Marked(s, ids);
    PushedKeys(s.outbox, Unbanned(marked) - s.shut, BannedIds(NewlyBanned(ids, s.banned)));
  }

  /** The step that bans a connected client shuts its connection down, and no other. */
  lemma BanShuts(s: Server, ids: seq<nat>)
    requires s.reg.ValidIds() && ShutAreBanned(s)
    ensures ShutAreBanned(BanApplied(s, ids))
  {
    hide PushedAll;
    var newIds, s' := NewlyBanned(ids, s.banned), BanApplied(s, ids);
    forall fd
      ensures fd in s'.shut <==> Muted(s', fd)
    {
      if fd in s.reg.clients && s.reg.clients[fd].id in newIds {
        assert s.reg.fdById[s.reg.clients[fd].id] == fd;
      }
    }
  }

  lemma StepKeepsValid(s: Server, e: Event)
    requires Valid(s) && Enabled(s, e)
    ensures Valid(Step(s, e))
  {
    match e
    case Accept(fd) => AcceptKeepsValid(s, fd);
    case Hangup(fd) => RemovedKeepsValid(s, fd);
    case Ban(ids) => BanKeepsValid(s, ids);
    case Data(fd, incoming) =>
      if s.reg.clients[fd].id in s.banned || incoming.Closed? {
        RemovedKeepsValid(s, fd);
      } else if incoming.Received? {
        DispatchedKeepsValid(s, fd, incoming.message);
      } else {
        OnlySendsKeepsValid(s, Step(s, e));
      }
  }
}
