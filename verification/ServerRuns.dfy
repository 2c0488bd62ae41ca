/** Whole runs of the server: every sequence of enabled events from the initial state. */
module ServerRuns {
  import opened Bytes
  import opened Messages
  import opened Registry
  import opened Server
  import opened ServerSafety
  import opened ServerSends

  datatype Run = Run(states: seq<Server>, events: seq<Event>)

  /** Step is only defined on valid states; ReachesValid shows that a run meets no other. */
  ghost predicate Follows(s: Server, e: Event, s': Server) {
    Valid(s) ==> Enabled(s, e) && s' == Step(s, e)
  }

  ghost predicate IsRun(r: Run) {
    && |r.states| == |r.events| + 1
    && r.states[0] == Initial()
    && forall j :: 0 <= j < |r.events| ==> Follows(r.states[j], r.events[j], r.states[j + 1])
  }

  /** Every state a run reaches is valid: indexes, id pool and outboxes agree. */
  lemma {:induction false} ReachesValid(r: Run, j: nat)
    requires IsRun(r) && j < |r.states|
    ensures Valid(r.states[j])
  {
    hide Valid, Step, Enabled;
    if j == 0 {
      StartsValid();
    } else {
      ReachesValid(r, j - 1);
      assert Follows(r.states[j - 1], r.events[j - 1], r.states[j]);
      StepKeepsValid(r.states[j - 1], r.events[j - 1]);
    }
  }

  lemma StartsValid()
    ensures Valid(Initial())
  {
  }

  lemma RunStep(r: Run, j: nat)
    requires IsRun(r) && j < |r.events|
    ensures Valid(r.states[j]) && Enabled(r.states[j], r.events[j])
    ensures r.states[j + 1] == Step(r.states[j], r.events[j])
  {
    ReachesValid(r, j);
    assert Follows(r.states[j], r.events[j], r.states[j + 1]);
  }

  lemma RunEffect(r: Run, j: nat)
    requires IsRun(r) && j < |r.events|
    ensures Valid(r.states[j]) && Valid(r.states[j + 1])
    ensures Effect(r.states[j], r.events[j], r.states[j + 1])
  {
    RunStep(r, j);
    StepHasEffect(r.states[j], r.events[j]);
  }

  /** One step seen from outside: its effect, on states whose outboxes are those of the registry. */
  ghost predicate Link(s: Server, e: Event, s': Server) {
    && s.reg.ValidIds() && s.outbox.Keys == s.reg.clients.Keys
    && s'.reg.ValidIds() && s'.outbox.Keys == s'.reg.clients.Keys
    && Effect(s, e, s')
  }

  ghost predicate IsHistory(r: Run) {
    && |r.states| == |r.events| + 1
    && r.states[0].reg.clients == map[]
    && forall j :: 0 <= j < |r.events| ==> Link(r.states[j], r.events[j], r.states[j + 1])
  }

  lemma RunIsHistory(r: Run)
    requires IsRun(r)
    ensures IsHistory(r)
  {
    forall j | 0 <= j < |r.events|
      ensures Link(r.states[j], r.events[j], r.states[j + 1])
    {
      RunEffect(r, j);
    }
  }

  // ----- the allocator never outgrows its load -----

  /** The largest number of clients connected at one time, up to the j-th state. */
  function Peak(r: Run, j: nat): (n: nat)
    requires j < |r.states|
    ensures n >= |r.states[j].reg.fdById|
  {
    var now := |r.states[j].reg.fdById|;
    if j == 0 || Peak(r, j - 1) <= now then now else Peak(r, j - 1)
  }

  lemma UnionSize(a: set<nat>, b: set<nat>)
    ensures |a + b| <= |a| + |b|
  {
    assert |a + b| == |a| + |b| - |a * b|;
  }

  lemma SubsetSize(a: set<nat>, b: set<nat>)
    requires a <= b
    ensures |a| <= |b|
  {
    assert b == a + (b - a);
  }

  lemma AcceptMovesCounter(s: Server, fd: Fd, s': Server)
    requires Valid(s) && Enabled(s, Accept(fd)) && s' == Step(s, Accept(fd)) && s.free == {}
    ensures s'.nextId - 1 <= |s'.reg.fdById.Keys| + |s'.banned|
  {
    AllocatesSmallest(s);
    var id := AllocatedId(s);
    assert s'.nextId == id + 1 && s'.banned == s.banned;
    assert s'.reg.fdById.Keys == s.reg.fdById.Keys + {id};
    RangeFits(id, s'.reg.fdById.Keys + s'.banned);
    UnionSize(s'.reg.fdById.Keys, s'.banned);
  }

  lemma StepKeepsCounter(s: Server, e: Event)
    requires Valid(s) && Enabled(s, e) && !(e.Accept? && s.free == {})
    ensures Step(s, e).nextId == s.nextId
  {
    if Dispatches(s, e) {
      DispatchOrigin(s, e, e.fd);
    } else if e.Accept? {
      assert s.free - s.banned == s.free;
    }
  }

  lemma CounterStep(s: Server, e: Event, s': Server)
    requires Valid(s) && Enabled(s, e) && s' == Step(s, e)
    ensures |s.banned| <= |s'.banned|
    ensures s'.nextId == s.nextId || s'.nextId - 1 <= |s'.reg.fdById.Keys| + |s'.banned|
  {
    StepHasEffect(s, e);
    SubsetSize(s.banned, s'.banned);
    if e.Accept? && s.free == {} {
      AcceptMovesCounter(s, e.fd, s');
    } else {
      StepKeepsCounter(s, e);
    }
  }

  /**
   * Over every run the counter is at most one above the peak number of connected clients plus the
   * number of banned ids: connecting and disconnecting alone never uses ids up.
   */
  lemma {:induction false} CounterBound(r: Run, j: nat)
    requires IsRun(r) && j < |r.states|
    ensures r.states[j].nextId - 1 <= Peak(r, j) + |r.states[j].banned|
  {
    hide Valid, Step, Enabled, Follows;
    if j > 0 {
      CounterBound(r, j - 1);
      RunStep(r, j - 1);
      CounterStep(r.states[j - 1], r.events[j - 1], r.states[j]);
      assert |r.states[j].reg.fdById.Keys| == |r.states[j].reg.fdById|;
    }
  }

  /** As long as that sum stays below 2^32 - 2, every accept finds an id and the counter does not wrap. */
  lemma LightLoadNeverWraps(r: Run, j: nat)
    requires IsRun(r) && j < |r.states|
    requires Peak(r, j) + |r.states[j].banned| < MAX_CLIENT_ID
    ensures HasSpareId(r.states[j])
  {
    var s := r.states[j];
    UnionSize(s.reg.fdById.Keys, s.banned);
    assert |s.reg.fdById.Keys| == |s.reg.fdById|;
    FewIdsLeaveASpare(s);
  }

  // ----- a ban is final -----

  lemma {:induction false} BansOnlyGrow(r: Run, k: nat, j: nat)
    requires IsRun(r) && k <= j < |r.states|
    ensures r.states[k].banned <= r.states[j].banned
    decreases j - k
  {
    hide Follows, Effect, Valid;
    if k < j {
      BansOnlyGrow(r, k, j - 1);
      ReachesValid(r, j - 1);
      ReachesValid(r, j);
      RunEffect(r, j - 1);
      EffectKeepsBans(r.states[j - 1], r.events[j - 1], r.states[j]);
    }
  }

  lemma EffectKeepsBans(s: Server, e: Event, s': Server)
    requires Valid(s) && Valid(s') && Effect(s, e, s')
    ensures s.banned <= s'.banned
  {
    hide HandsOne, AcceptEffect, RemoveEffect, NicknameEffect, ValidIdPool, ShutAreBanned;
  }

  /** The message neither assigns x, nor carries anything from x, nor announces x as banned. */
  predicate Ignores(m: AppMessage, x: nat) {
    match m
    case AssignId(id, _) => id != x
    case Deliver(fromId, _) => fromId != x
    case PeerKey(fromId, _) => fromId != x
    case RoomKey(fromId, _) => fromId != x
    case BannedIds(ids) => x !in ids
    case _ => true
  }

  lemma BannedStepIsSilent(s: Server, e: Event, s': Server, g: Fd, x: nat, ms: seq<AppMessage>)
    requires s.reg.ValidIds() && s'.reg.ValidIds() && Effect(s, e, s') && x in s.banned
    requires g in s'.reg.clients && Hands(s, e, s', g, ms)
    ensures forall i :: 0 <= i < |ms| ==> Ignores(ms[i], x)
    ensures s'.reg.clients[g].id == x ==> ms == []
  {
    hide Origin, AcceptEffect, RemoveEffect, NicknameEffect, Removes, GivesNickname, Ignores;
    assert HandsOne(s, e, s', g);
    if m :| Hands(s, e, s', g, [m]) && Origin(s, e, s', g, m) {
      SameMessages(s, e, s', g, ms, [m]);
      OriginIgnores(s, e, s', g, m, x);
    } else {
      SameMessages(s, e, s', g, ms, []);
    }
  }

  lemma OriginIgnores(s: Server, e: Event, s': Server, g: Fd, m: AppMessage, x: nat)
    requires s.reg.ValidIds() && s'.reg.ValidIds() && Effect(s, e, s') && x in s.banned
    requires g in s'.reg.clients && Origin(s, e, s', g, m)
    ensures Ignores(m, x) && s'.reg.clients[g].id != x
  {
    hide HandsOne;
  }

  /** A ban stays, and whatever a banned id's connection sends is answered by disconnecting it. */
  lemma BannedDataDisconnects(r: Run, k: nat, j: nat, x: nat)
    requires IsRun(r) && k <= j < |r.events| && x in r.states[k].banned
    ensures x in r.states[j].banned && x in r.states[j + 1].banned
    ensures var s, e := r.states[j], r.events[j];
            e.Data? && e.fd in s.reg.clients && s.reg.clients[e.fd].id == x ==>
              r.states[j + 1] == Removed(s, e.fd) && e.fd !in r.states[j + 1].reg.clients && x !in r.states[j + 1].reg.fdById
  {
    hide Follows;
    BansOnlyGrow(r, k, j);
    BansOnlyGrow(r, k, j + 1);
    RunStep(r, j);
  }

  /**
   * After an id is banned, no later step of the run assigns it, relays anything from it, announces it
   * again, or hands its connection anything at all.
   */
  lemma BanIsFinal(r: Run, k: nat, j: nat, x: nat, g: Fd, ms: seq<AppMessage>)
    requires IsRun(r) && k <= j < |r.events| && x in r.states[k].banned
    requires g in r.states[j + 1].reg.clients && Hands(r.states[j], r.events[j], r.states[j + 1], g, ms)
    ensures forall i :: 0 <= i < |ms| ==> Ignores(ms[i], x)
    ensures r.states[j + 1].reg.clients[g].id == x ==> ms == []
  {
    hide Follows, Effect;
    BansOnlyGrow(r, k, j);
    RunEffect(r, j);
    BannedStepIsSilent(r.states[j], r.events[j], r.states[j + 1], g, x, ms);
  }

  lemma SameMessages(s: Server, e: Event, s': Server, g: Fd, ms: seq<AppMessage>, ms': seq<AppMessage>)
    requires Hands(s, e, s', g, ms) && Hands(s, e, s', g, ms')
    ensures ms == ms'
  {
    assert ms == s'.outbox[g][|Before(s, e, g)|..] == ms';
  }

  /** Whatever one message a step hands to a connection has its origin in that step. */
  lemma HandedHasOrigin(s: Server, e: Event, s': Server, g: Fd, m: AppMessage)
    requires s.reg.ValidIds() && HandsOne(s, e, s', g) && Hands(s, e, s', g, [m])
    ensures Origin(s, e, s', g, m)
  {
    hide Origin;
    if m' :| Hands(s, e, s', g, [m']) && Origin(s, e, s', g, m') {
      SameMessages(s, e, s', g, [m], [m']);
      assert [m][0] == [m'][0];
    } else {
      SameMessages(s, e, s', g, [m], []);
    }
  }

  lemma MutedHearNothing(s: Server, e: Event, s': Server, g: Fd)
    requires Link(s, e, s') && Muted(s', g) && g in s.outbox && Before(s, e, g) == s.outbox[g]
    ensures s'.outbox[g] == s.outbox[g]
  {
    hide Effect, Origin;
    LinkHandsOne(s, e, s', g);
    if m :| Hands(s, e, s', g, [m]) && Origin(s, e, s', g, m) {
      HeardIsNotMuted(s, e, s', g, m);
    }
  }

  lemma FreshOutbox(s: Server, s': Server, g: Fd)
    requires s.reg.ValidIds() && s'.reg.ValidIds() && s'.outbox.Keys == s'.reg.clients.Keys
    requires Effect(s, Accept(g), s') && g in s'.reg.clients
    ensures s'.outbox[g] == [AssignId(s'.reg.clients[g].id, s.reg.clients == map[])]
  {
    hide HandsOne;
  }

  lemma WasThere(s: Server, e: Event, s': Server, g: Fd)
    requires Link(s, e, s') && g in s'.reg.clients && e != Accept(g)
    ensures g in s.reg.clients && g in s.outbox && Before(s, e, g) == s.outbox[g]
  {
    hide HandsOne;
  }

  lemma LinkHandsOne(s: Server, e: Event, s': Server, g: Fd)
    requires Link(s, e, s') && g in s'.reg.clients
    ensures HandsOne(s, e, s', g)
  {
    hide HandsOne, AcceptEffect, RemoveEffect, NicknameEffect;
  }

  /** The connection on g is the same one, of client x, in all states from i to j, and x is banned in step i. */
  ghost predicate BannedIn(r: Run, i: nat, j: nat, g: Fd, x: nat)
    requires |r.states| == |r.events| + 1 && i < j < |r.states|
  {
    && r.events[i].Ban? && x in NewlyBanned(r.events[i].ids, r.states[i].banned)
    && (forall l :: i <= l <= j ==>
          g in r.states[l].reg.clients && r.states[l].reg.clients[g].id == x && g in r.states[l].outbox)
    && (forall l :: i < l <= j ==> g in r.states[l].shut)
  }

  /** What one step does to the connection of a client that is banned after it. */
  lemma MutedStep(s: Server, e: Event, s': Server, g: Fd)
    requires Valid(s) && Enabled(s, e) && s' == Step(s, e) && Valid(s') && Effect(s, e, s') && Muted(s', g)
    ensures g in s.reg.clients && s.reg.clients[g].id == s'.reg.clients[g].id
    ensures g in s'.shut && s'.outbox[g] == s.outbox[g]
    ensures !Muted(s, g) ==> e.Ban? && s.reg.clients[g].id in NewlyBanned(e.ids, s.banned)
  {
    hide Step, Effect;
    NewlyMuted(s, e, s', g);
    MutedHearNothing(s, e, s', g);
  }

  /** Whoever is handed something is not banned after the step. */
  lemma HeardIsNotMuted(s: Server, e: Event, s': Server, g: Fd, m: AppMessage)
    requires s.reg.ValidIds() && s'.reg.ValidIds() && Effect(s, e, s') && Origin(s, e, s', g, m) && g in s'.reg.clients
    ensures !Muted(s', g)
  {
    hide HandsOne;
  }

  lemma NewlyMuted(s: Server, e: Event, s': Server, g: Fd)
    requires Valid(s) && Enabled(s, e) && s' == Step(s, e) && s'.reg.ValidIds() && Effect(s, e, s') && Muted(s', g)
    ensures g in s.reg.clients && s.reg.clients[g].id == s'.reg.clients[g].id && e != Accept(g)
    ensures !Muted(s, g) ==> e.Ban? && s.reg.clients[g].id in NewlyBanned(e.ids, s.banned)
  {
    hide HandsOne, Accepted, DataHandled, Removed, Registry.ValidNames, ValidIdPool, PushedAll;
  }

  /**
   * A banned client receives nothing: if its connection is still open, some step i of the run banned it,
   * the connection was open then and has been shut down ever since, and not one message has been written
   * to it in that step or later.
   */
  lemma {:induction false} BannedReceiveNothing(r: Run, j: nat, g: Fd) returns (i: nat)
    requires IsRun(r) && j < |r.states| && Muted(r.states[j], g)
    ensures i < j && BannedIn(r, i, j, g, r.states[j].reg.clients[g].id)
    ensures forall l :: i <= l <= j ==> r.states[l].outbox[g] == r.states[j].outbox[g]
    decreases j
  {
    hide Valid, Step, Enabled, Follows, Effect, NewlyBanned;
    ReachesValid(r, j);
    if j == 0 {
      assert false;
    } else {
      RunStep(r, j - 1);
      RunEffect(r, j - 1);
      ValidOutboxes(r.states[j - 1]);
      ValidOutboxes(r.states[j]);
      MutedStep(r.states[j - 1], r.events[j - 1], r.states[j], g);
      if Muted(r.states[j - 1], g) {
        i := BannedReceiveNothing(r, j - 1, g);
      } else {
        i := j - 1;
      }
    }
  }

  lemma ValidOutboxes(s: Server)
    requires Valid(s)
    ensures s.reg.ValidIds() && s.outbox.Keys == s.reg.clients.Keys && (forall g :: g in s.shut <==> Muted(s, g))
  {
  }

  /** A connection that has not been shut down and is told of no one joining or leaving has missed no change but its own. */
  lemma NoNewsNoChange(s: Server, e: Event, s': Server, g: Fd, ms: seq<AppMessage>)
    requires s.reg.ValidIds() && s'.reg.ValidIds() && Effect(s, e, s')
    requires g in s.reg.clients && g in s'.reg.clients && !Muted(s, g) && Hands(s, e, s', g, ms)
    requires forall m :: m in ms ==> !m.UserJoined? && !m.UserLeft?
    ensures s'.reg == s.reg || (GivesNickname(s, e) && g == e.fd && NicknameEffect(s, e, s'))
  {
    hide HandsOne;
    if news :| Hands(s, e, s', g, [news]) && (news.UserJoined? || news.UserLeft?) {
      SameMessages(s, e, s', g, ms, [news]);
      assert false;
    }
  }

  lemma JoinChanges(s: Server, e: Event, s': Server, g: Fd, id: nat, nickname: seq<Byte>)
    requires s.reg.ValidIds() && s'.reg.ValidIds() && Effect(s, e, s') && Origin(s, e, s', g, UserJoined(id, nickname))
    ensures s'.reg.Names() == s.reg.Names()[id := nickname]
    ensures id in s.reg.fdById ==> GivesNickname(s, e) && id == s.reg.clients[e.fd].id && s.reg.Names()[id] == s.reg.clients[e.fd].nickname
  {
  }

  lemma LeaveChanges(s: Server, e: Event, s': Server, g: Fd, id: nat, nickname: seq<Byte>)
    requires s.reg.ValidIds() && s'.reg.ValidIds() && Effect(s, e, s') && Origin(s, e, s', g, UserLeft(id, nickname))
    ensures id in s.reg.Names() && s.reg.Names()[id] == nickname && s'.reg.Names() == s.reg.Names() - {id}
  {
  }

  // ----- routing -----

  /**
   * In every run, a broadcast from a client that is not banned hands one relayed message to each other
   * client that is not banned and nothing to anyone else, always under the sender's registry id.
   */
  lemma BroadcastsAreExact(r: Run, j: nat, chat: ChatPayload, relay: Relay, g: Fd)
    requires IsRun(r) && j < |r.events| && IsRelay(r.states[j], r.events[j], chat, relay)
    requires chat.recipientTag == RECIPIENT_BROADCAST && g in r.states[j].reg.clients
    ensures var s, e := r.states[j], r.events[j];
            && r.states[j + 1] == s.(outbox := r.states[j + 1].outbox)
            && Hands(s, e, r.states[j + 1], g, if g != e.fd && s.reg.clients[g].id !in s.banned
                                               then [Wrapped(relay, s.reg.clients[e.fd].id, chat.text)] else [])
  {
    hide Follows, Valid, Step, IsRelay, Enabled;
    RunStep(r, j);
    BroadcastSends(r.states[j], r.events[j], chat, relay, g);
  }

  /** One Error goes to the sender and nothing to anyone else. */
  ghost predicate AnswersError(s: Server, e: Event, s': Server, g: Fd)
    requires e.Data?
  {
    exists text :: |text| <= MAX_U16_COUNT && Hands(s, e, s', g, if g == e.fd then [Error(text)] else [])
  }

  /**
   * In every run, a message to one client that is connected and not banned is handed to that client once
   * and to nobody else, under the sender's registry id; one to anybody else costs the sender one Error.
   */
  lemma UnicastsAreExact(r: Run, j: nat, chat: ChatPayload, relay: Relay, g: Fd)
    requires IsRun(r) && j < |r.events| && IsRelay(r.states[j], r.events[j], chat, relay)
    requires chat.recipientTag != RECIPIENT_BROADCAST && g in r.states[j].reg.clients
    ensures r.states[j].reg.ValidIds() && r.states[j + 1] == r.states[j].(outbox := r.states[j + 1].outbox)
    ensures var s, e := r.states[j], r.events[j];
            forall id: nat :: Addressed(s, chat, id) && id !in s.banned ==>
              Hands(s, e, r.states[j + 1], g, if s.reg.clients[g].id == id
                                              then [Wrapped(relay, s.reg.clients[e.fd].id, chat.text)] else [])
    ensures var s, e := r.states[j], r.events[j];
            (forall id: nat :: Addressed(s, chat, id) ==> id in s.banned) ==> AnswersError(s, e, r.states[j + 1], g)
  {
    hide Follows, Step, Addressed, Enabled;
    RunStep(r, j);
    UnicastSends(r.states[j], r.events[j], chat, relay, g);
  }

  // ----- room creation -----

  ghost predicate TellsToCreateRoom(ms: seq<AppMessage>) {
    exists m :: m in ms && m.AssignId? && m.createRoom
  }

  lemma OnlyFirstCreates(s: Server, e: Event, s': Server, g: Fd, ms: seq<AppMessage>)
    requires s.reg.ValidIds() && s'.reg.ValidIds() && Effect(s, e, s')
    requires g in s'.reg.clients && Hands(s, e, s', g, ms)
    ensures TellsToCreateRoom(ms) <==> e == Accept(g) && s.reg.clients == map[]
  {
    assert HandsOne(s, e, s', g);
    if m :| Hands(s, e, s', g, [m]) && Origin(s, e, s', g, m) {
      SameMessages(s, e, s', g, ms, [m]);
    } else {
      SameMessages(s, e, s', g, ms, []);
    }
    if e == Accept(g) {
      var first := AssignId(s'.reg.clients[g].id, s.reg.clients == map[]);
      SameMessages(s, e, s', g, ms, [first]);
      assert first in ms;
    }
  }

  /**
   * A period in which clients are connected begins with an accept whose AssignId tells the new client to
   * create the room, and no other step of the period sends such an AssignId to anyone.
   */
  lemma OneRoomPerPeriod(r: Run, i: nat, k: nat, g: Fd, ms: seq<AppMessage>)
    requires IsRun(r) && i <= k < |r.events|
    requires r.states[i].reg.clients == map[]
    requires forall l :: i < l <= k + 1 ==> r.states[l].reg.clients != map[]
    requires g in r.states[k + 1].reg.clients && Hands(r.states[k], r.events[k], r.states[k + 1], g, ms)
    ensures r.events[i].Accept?
    ensures TellsToCreateRoom(ms) <==> k == i && g == r.events[i].fd
  {
    RunEffect(r, i);
    assert r.events[i].Accept? by {
      assert r.states[i + 1].reg.clients != map[];
    }
    RunEffect(r, k);
    OnlyFirstCreates(r.states[k], r.events[k], r.states[k + 1], g, ms);
  }
}
