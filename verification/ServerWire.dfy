/**
 * What the server hands out against what a connection can carry. Every message handed out can be encoded,
 * but the frame has a sixteen-bit length, so not every one gets across.
 */
module ServerWire {
  import opened Bytes
  import opened Messages
  import opened Registry
  import opened Server
  import opened ServerSafety
  import opened ServerSends
  import opened ServerRuns
  import opened EndToEnd

  // ----- every message handed out can be encoded -----

  ghost predicate AllWellFormed(ms: seq<AppMessage>) {
    forall i :: 0 <= i < |ms| ==> WellFormed(ms[i])
  }

  /** What the step hands to g can be encoded. */
  ghost predicate HandsWell(s: Server, e: Event, g: Fd)
    requires Valid(s)
  {
    exists ms :: Appends(s, e, g, ms) && AllWellFormed(ms)
  }

  lemma HandsThese(s: Server, e: Event, g: Fd, ms: seq<AppMessage>)
    requires Valid(s) && Appends(s, e, g, ms) && AllWellFormed(ms)
    ensures HandsWell(s, e, g)
  {
  }

  lemma ErrorIsWell(s: Server, e: Event, g: Fd)
    requires Valid(s) && e.Data? && RepliesError(s, e, g)
    ensures HandsWell(s, e, g)
  {
    var text :| |text| <= MAX_U16_COUNT && Appends(s, e, g, if g == e.fd then [Error(text)] else []);
    HandsThese(s, e, g, if g == e.fd then [Error(text)] else []);
  }

  /** Ids in the registry are uint32_t values. */
  lemma IdFits(s: Server, fd: Fd)
    requires Valid(s) && fd in s.reg.clients
    ensures s.reg.clients[fd].id < U32_LIMIT && |s.reg.clients[fd].nickname| <= MAX_U16_COUNT
  {
    RecordFits(s.reg, fd);
    assert s.reg.clients[fd].id in s.reg.fdById;
  }

  lemma AcceptIsWell(s: Server, fd: Fd, g: Fd)
    requires Valid(s) && Enabled(s, Accept(fd)) && g in Step(s, Accept(fd)).reg.clients
    ensures HandsWell(s, Accept(fd), g)
  {
    hide Step, Appends;
    AllocatesSmallest(s);
    AcceptSends(s, fd, g);
    HandsThese(s, Accept(fd), g, if g == fd then [AssignId(AllocatedId(s), s.reg.clients == map[])]
                                 else if Muted(s, g) then [] else [UserJoined(AllocatedId(s), [])]);
  }

  lemma RemoveIsWell(s: Server, e: Event, g: Fd)
    requires Valid(s) && Enabled(s, e) && Removes(s, e) && g in Step(s, e).reg.clients
    ensures HandsWell(s, e, g)
  {
    hide Step, Valid, Appends, Enabled;
    RemovingStep(s, e);
    IdFits(s, e.fd);
    RemoveSends(s, e, e.fd, g);
    HandsThese(s, e, g, if Muted(s, g) then [] else [UserLeft(s.reg.clients[e.fd].id, s.reg.clients[e.fd].nickname)]);
  }

  lemma RemovingStep(s: Server, e: Event)
    requires Valid(s) && Removes(s, e)
    ensures Step(s, e) == Removed(s, e.fd)
  {
    hide Valid, Removed;
  }

  lemma BanIsWell(s: Server, ids: seq<nat>, g: Fd)
    requires Valid(s) && Enabled(s, Ban(ids)) && g in s.reg.clients
    ensures HandsWell(s, Ban(ids), g)
  {
    var newIds := NewlyBanned(ids, s.banned);
    assert forall i :: 0 <= i < |newIds| ==> newIds[i] in ids;
    assert WellFormed(BannedIds(newIds));
    hide Step, Valid, Appends, WellFormed, NewlyBanned;
    BanSends(s, ids, g);
    HandsThese(s, Ban(ids), g, if newIds == [] || s.reg.clients[g].id in s.banned + NonZero(ids) then [] else [BannedIds(newIds)]);
  }

  lemma RegisterIsWell(s: Server, e: Event, g: Fd)
    requires Valid(s) && Enabled(s, e) && Dispatches(s, e) && g in s.reg.clients
    requires e.incoming.Received? && e.incoming.message.Register?
    ensures HandsWell(s, e, g)
  {
    IdFits(s, e.fd);
    RegisterSends(s, e, g);
    hide Step, Valid, Appends;
    if MayTakeNickname(s.reg, e.fd, e.incoming.message.nickname) {
      HandsThese(s, e, g, if g == e.fd || Muted(s, g) then []
                          else [UserJoined(s.reg.clients[e.fd].id, e.incoming.message.nickname)]);
    } else {
      ErrorIsWell(s, e, g);
    }
  }

  lemma RelayIsWell(s: Server, e: Event, g: Fd, chat: ChatPayload, relay: Relay)
    requires Valid(s) && Enabled(s, e) && IsRelay(s, e, chat, relay) && g in s.reg.clients
    ensures HandsWell(s, e, g)
  {
    if chat.recipientTag == RECIPIENT_BROADCAST {
      BroadcastIsWell(s, e, g, chat, relay);
    } else {
      UnicastIsWell(s, e, g, chat, relay);
    }
  }

  lemma WrappedIsWell(s: Server, e: Event, chat: ChatPayload, relay: Relay)
    requires Valid(s) && Enabled(s, e) && IsRelay(s, e, chat, relay)
    ensures e.Data? && e.fd in s.reg.clients && s.reg.ValidIds() && WellFormed(Wrapped(relay, s.reg.clients[e.fd].id, chat.text))
  {
    IdFits(s, e.fd);
  }

  lemma BroadcastIsWell(s: Server, e: Event, g: Fd, chat: ChatPayload, relay: Relay)
    requires Valid(s) && Enabled(s, e) && IsRelay(s, e, chat, relay) && g in s.reg.clients
    requires chat.recipientTag == RECIPIENT_BROADCAST
    ensures HandsWell(s, e, g)
  {
    hide Step, Valid, Enabled, IsRelay, Appends, WellFormed, Wrapped;
    WrappedIsWell(s, e, chat, relay);
    BroadcastSends(s, e, chat, relay, g);
    var m := Wrapped(relay, s.reg.clients[e.fd].id, chat.text);
    HandsThese(s, e, g, if g != e.fd && s.reg.clients[g].id !in s.banned then [m] else []);
  }

  lemma UnicastIsWell(s: Server, e: Event, g: Fd, chat: ChatPayload, relay: Relay)
    requires Valid(s) && Enabled(s, e) && IsRelay(s, e, chat, relay) && g in s.reg.clients
    requires chat.recipientTag != RECIPIENT_BROADCAST
    ensures HandsWell(s, e, g)
  {
    hide Step, Valid, Enabled, Appends, WellFormed, Wrapped, Addressed, RepliesError;
    WrappedIsWell(s, e, chat, relay);
    UnicastSends(s, e, chat, relay, g);
    var m := Wrapped(relay, s.reg.clients[e.fd].id, chat.text);
    if id: nat :| Addressed(s, chat, id) && id !in s.banned {
      HandsThese(s, e, g, if s.reg.clients[g].id == id then [m] else []);
    } else {
      ErrorIsWell(s, e, g);
    }
  }

  lemma ListIsWell(s: Server, e: Event, g: Fd)
    requires Valid(s) && Enabled(s, e) && Dispatches(s, e) && e.incoming == Received(ListUsers) && g in s.reg.clients
    ensures HandsWell(s, e, g)
  {
    hide Step, Appends, SortedUsers, Enabled, RepliesError;
    var users := SortedUsers(s.reg.Names());
    ListIsWellFormed(s);
    ListUsersSends(s, e, g);
    if |users| <= MAX_U16_COUNT {
      HandsThese(s, e, g, if g == e.fd then [UsersList(users)] else []);
    } else {
      ErrorIsWell(s, e, g);
    }
  }

  lemma ListIsWellFormed(s: Server)
    requires Valid(s)
    ensures forall i :: 0 <= i < |SortedUsers(s.reg.Names())| ==> WellFormedUser(SortedUsers(s.reg.Names())[i])
  {
    hide SortedUsers;
    var users := SortedUsers(s.reg.Names());
    SortedUsersContents(s.reg.Names());
    forall i | 0 <= i < |users|
      ensures WellFormedUser(users[i])
    {
      IdFits(s, s.reg.fdById[users[i].id]);
    }
  }

  lemma StepIsWell(s: Server, e: Event, g: Fd)
    requires Valid(s) && Enabled(s, e) && g in Step(s, e).reg.clients
    ensures HandsWell(s, e, g)
  {
    StillThere(s, e, g);
    hide Step, Valid, HandsWell;
    if e.Accept? {
      AcceptIsWell(s, e.fd, g);
    } else if e.Ban? {
      BanIsWell(s, e.ids, g);
    } else if Removes(s, e) {
      RemoveIsWell(s, e, g);
    } else if e.incoming.Received? && e.incoming.message.Register? {
      RegisterIsWell(s, e, g);
    } else if e.incoming == Received(ListUsers) {
      ListIsWell(s, e, g);
    } else if e.incoming.Received? && RelayOf(e.incoming.message).Some? {
      RelayIsWell(s, e, g, e.incoming.message.chat, RelayOf(e.incoming.message).value);
    } else {
      OtherSends(s, e, g);
      ErrorIsWell(s, e, g);
    }
  }

  lemma StillThere(s: Server, e: Event, g: Fd)
    requires Valid(s) && Enabled(s, e) && g in Step(s, e).reg.clients
    ensures e.Accept? || g in s.reg.clients
  {
    StepHasEffect(s, e);
  }

  // ----- over runs -----

  ghost predicate OutboxesWell(s: Server) {
    forall g :: g in s.outbox ==> AllWellFormed(s.outbox[g])
  }

  lemma StepKeepsWell(s: Server, e: Event, s': Server)
    requires Valid(s) && Enabled(s, e) && s' == Step(s, e) && Valid(s') && OutboxesWell(s)
    ensures OutboxesWell(s')
  {
    forall g | g in s'.outbox
      ensures AllWellFormed(s'.outbox[g])
    {
      StepKeepsWellOne(s, e, s', g);
    }
  }

  lemma StepKeepsWellOne(s: Server, e: Event, s': Server, g: Fd)
    requires Valid(s) && Enabled(s, e) && s' == Step(s, e) && Valid(s') && OutboxesWell(s) && g in s'.outbox
    ensures AllWellFormed(s'.outbox[g])
  {
    hide Step, WellFormed, Enabled;
    StepIsWell(s, e, g);
    var ms :| Appends(s, e, g, ms) && AllWellFormed(ms);
    assert s'.outbox[g] == Before(s, e, g) + ms;
  }

  lemma {:induction false} ReachesWell(r: Run, j: nat)
    requires IsRun(r) && j < |r.states|
    ensures OutboxesWell(r.states[j])
  {
    hide Valid, Step, Enabled, Follows, AllWellFormed;
    if j > 0 {
      ReachesWell(r, j - 1);
      RunStep(r, j - 1);
      ReachesValid(r, j);
      StepKeepsWell(r.states[j - 1], r.events[j - 1], r.states[j]);
    }
  }

  /**
   * In every run, a message handed to a connection gets across if and only if its nickname has at most
   * 65526 bytes, its list of ids at most 16382 entries, its error text at most 65530 bytes, its list of
   * users at most 65530, its relayed text at most 65526.
   */
  lemma HandedCrossesIff(r: Run, j: nat, g: Fd, k: nat)
    requires IsRun(r) && j < |r.states| && g in r.states[j].outbox && k < |r.states[j].outbox[g]|
    ensures var m := r.states[j].outbox[g][k];
            WellFormed(m) && OnWire(m).Some? && (Crosses(m) <==> Fits(m))
  {
    hide Follows, Crosses, Fits;
    ReachesWell(r, j);
    assert AllWellFormed(r.states[j].outbox[g]);
    CrossesIffFits(r.states[j].outbox[g][k]);
  }

  /** In every run, a message by id that cannot be relayed costs its sender one Error, which quotes the id and gets across. */
  lemma RefusalByIdCrosses(r: Run, j: nat, chat: ChatPayload, relay: Relay, g: Fd)
    requires IsRun(r) && j < |r.events| && IsRelay(r.states[j], r.events[j], chat, relay)
    requires chat.recipientTag == RECIPIENT_BY_ID && |chat.recipientData| == 4 && g in r.states[j].reg.clients
    requires var id := ReadU32(chat.recipientData); id in r.states[j].reg.fdById ==> id in r.states[j].banned
    ensures var s, e, id := r.states[j], r.events[j], ReadU32(chat.recipientData);
            var refusal := Error(Refusal(id in s.reg.fdById, Decimal(id)));
            Hands(s, e, r.states[j + 1], g, if g == e.fd then [refusal] else []) && Crosses(refusal)
  {
    hide Follows, Step, Crosses, Valid, Refusal, IsRelay;
    RunStep(r, j);
    RefusalByIdSends(r.states[j], r.events[j], chat, relay, g);
    var id := ReadU32(chat.recipientData);
    RefusedIdFits(id in r.states[j].reg.fdById, id);
    CrossesIffFits(Error(Refusal(id in r.states[j].reg.fdById, Decimal(id))));
  }

  /**
   * A registration gets to the server if and only if the nickname has at most 65530 bytes; the news of it
   * gets to every other client if and only if it has at most 65526.
   */
  lemma NicknameCrossesIff(r: Run, j: nat, g: Fd)
    requires IsRun(r) && j < |r.events| && GivesNickname(r.states[j], r.events[j])
    requires g in r.states[j].reg.clients && g != r.events[j].fd
    ensures var s, e := r.states[j], r.events[j];
            var nickname := e.incoming.message.nickname;
            var news := UserJoined(s.reg.clients[e.fd].id, nickname);
            && Hands(s, e, r.states[j + 1], g, if Muted(s, g) then [] else [news])
            && (Crosses(e.incoming.message) <==> |nickname| <= 65530)
            && (Crosses(news) <==> |nickname| <= 65526)
  {
    hide Crosses, Follows, Valid, WellFormed, Effect, Fits, GivesNickname;
    RunStep(r, j);
    RunEffect(r, j);
    var s, e := r.states[j], r.events[j];
    NicknameIsTold(s, e, r.states[j + 1], g);
    var nickname, news := e.incoming.message.nickname, UserJoined(s.reg.clients[e.fd].id, e.incoming.message.nickname);
    CrossesIffFits(e.incoming.message);
    CrossesIffFits(news);
    NicknameBounds(s.reg.clients[e.fd].id, nickname);
  }

  lemma NicknameBounds(id: nat, nickname: seq<Byte>)
    ensures Fits(Register(nickname)) <==> |nickname| <= 65530
    ensures Fits(UserJoined(id, nickname)) <==> |nickname| <= 65526
  {
  }

  lemma NicknameIsTold(s: Server, e: Event, s': Server, g: Fd)
    requires Valid(s) && Enabled(s, e) && Valid(s') && Effect(s, e, s') && GivesNickname(s, e)
    requires g in s.reg.clients && g != e.fd
    ensures e.Data? && e.fd in s.reg.clients && e.incoming.Received? && e.incoming.message.Register?
    ensures var news := UserJoined(s.reg.clients[e.fd].id, e.incoming.message.nickname);
            Hands(s, e, s', g, if Muted(s, g) then [] else [news]) && WellFormed(e.incoming.message) && WellFormed(news)
  {
    hide HandsOne, MayTakeNickname;
    IdFits(s, e.fd);
  }
}
