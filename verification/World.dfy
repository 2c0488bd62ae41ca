/**
 * The whole system: the server of module Server, with the clients of module Gossip attached to its
 * connections. Every run of the whole system is a run of the exchange as module Gossip describes it,
 * so what is proved there holds of the server's own code and not of a summary of it.
 */
module World {
  import opened Bytes
  import opened Messages
  import opened Registry
  import opened Server
  import opened ServerSafety
  import opened ServerSends
  import opened Cipher
  import opened Client
  import opened Gossip
  import opened GossipTokens
  import opened GossipPairs
  import opened GossipAuth
  import opened GossipConvergence
  import opened GossipPolite

  /** What a client can take is what the server has put into its connection's outbox. */
  ghost predicate Wired(s: Server, net: Net) {
    && s.reg.fdById.Keys == net.node.Keys
    && forall x :: x in net.node ==> s.reg.fdById[x] in s.outbox && net.node[x].down == s.outbox[s.reg.fdById[x]]
  }

  ghost predicate Coupled(s: Server, net: Net) {
    Valid(s) && s.banned == {} && s.free == {} && s.nextId == net.size + 1 && Wired(s, net)
  }

  /** Client n on the connection whose outbox is now down. */
  function Addressee(n: Node, down: seq<AppMessage>, served: bool): Node {
    n.(down := down, up := if served && n.up != [] then n.up[1..] else n.up)
  }

  /** A new client connects on fd: the server runs accept_client. */
  ghost predicate Connects(cipher: Cipher, s: Server, net: Net, secret: seq<Byte>, random: seq<Byte>, saved: Option<seq<Byte>>, fd: Fd, s': Server, net': Net)
    requires Valid(s)
  {
    && |secret| == KEY_SIZE && |random| == KEY_SIZE && (saved.Some? ==> |saved.value| == KEY_SIZE)
    && Enabled(s, Accept(fd)) && s' == Step(s, Accept(fd))
    && var id := AllocatedId(s);
       && fd in s'.outbox && s'.outbox.Keys >= s.outbox.Keys
       && net' == net.(size := net.size + 1, node := net'.node)
       && net'.node.Keys == net.node.Keys + {id}
       && net'.node[id] == NewNode(cipher, id, secret, random, saved).(down := s'.outbox[fd])
       && forall i :: i in net.node && i != id && i in s.reg.fdById && s.reg.fdById[i] in s'.outbox ==>
            net'.node[i] == Addressee(net.node[i], s'.outbox[s.reg.fdById[i]], false)
  }

  /** The server runs handle_client_data on the connection of client x. */
  ghost predicate Handles(s: Server, net: Net, x: nat, s': Server, net': Net)
    requires Valid(s)
  {
    && x in net.node && net.node[x].up != [] && x in s.reg.fdById
    && s' == Step(s, Data(s.reg.fdById[x], Received(net.node[x].up[0])))
    && var m := net.node[x].up[0];
       && net' == net.(node := net'.node,
                       bounced := if m.KeyOffer? && Target(m) !in s.reg.fdById then net.bounced + {(x, Target(m))} else net.bounced)
       && net'.node.Keys == net.node.Keys
       && forall i :: i in net.node && i in s.reg.fdById && s.reg.fdById[i] in s'.outbox ==>
            net'.node[i] == Addressee(net.node[i], s'.outbox[s.reg.fdById[i]], i == x)
  }

  ghost predicate WorldNext(cipher: Cipher, s: Server, net: Net, a: Action, fd: Fd, s': Server, net': Net)
    requires Valid(s)
  {
    match a
    case Joins(secret, random, saved) => Connects(cipher, s, net, secret, random, saved, fd, s', net')
    case Serves(x) => Handles(s, net, x, s', net')
    case _ => s' == s && MovesTo(cipher, net, a, net')
  }

  /** Step is only defined on valid servers; StaysCoupled shows that a run of the system meets no other. */
  ghost predicate WorldFollows(cipher: Cipher, s: Server, net: Net, a: Action, fd: Fd, s': Server, net': Net) {
    Valid(s) ==> WorldNext(cipher, s, net, a, fd, s', net')
  }

  // ----- joining -----

  lemma SomeKey<K, V>(m: map<K, V>) returns (k: K)
    requires m != map[]
    ensures k in m
  {
    assert m.Keys != {};
    k :| k in m.Keys;
  }

  lemma EmptyTogether(s: Server, net: Net)
    requires Coupled(s, net) && Shape(net)
    ensures s.reg.clients == map[] <==> net.size == 0
  {
    if net.size > 0 {
      assert 1 in s.reg.fdById;
    }
    if s.reg.clients != map[] {
      var fd := SomeKey(s.reg.clients);
      assert s.reg.clients[fd].id in net.node;
    }
  }

  /** With nobody gone and nobody banned the ids are handed out in order of arrival. */
  lemma NextIdIsNext(s: Server, net: Net, fd: Fd)
    requires Coupled(s, net) && Shape(net) && Enabled(s, Accept(fd))
    ensures AllocatedId(s) == net.size + 1 <= MAX_CLIENT_ID
    ensures var s' := Step(s, Accept(fd));
            s'.nextId == net.size + 2 && s'.free == {} && s'.banned == {} && s'.reg == s.reg.Add(fd, net.size + 1)
  {
    AllocatesSmallest(s);
    hide Valid;
    assert s.free - s.banned == {};
    assert forall id: nat :: id in s.reg.fdById <==> 1 <= id <= net.size;
  }

  /** Everyone's outbox after a new client x has connected on fd. */
  ghost predicate JoinWired(s: Server, net: Net, fd: Fd, x: nat, s': Server) {
    && s'.reg.fdById == s.reg.fdById[x := fd]
    && fd in s'.outbox && s'.outbox[fd] == [AssignId(x, x == 1)]
    && forall i :: i in net.node ==>
         && i != x && i in s.reg.fdById && s.reg.fdById[i] in s'.outbox
         && s'.outbox[s.reg.fdById[i]] == net.node[i].down + [UserJoined(x, [])]
  }

  lemma AcceptWires(s: Server, net: Net, fd: Fd)
    requires Coupled(s, net) && Shape(net) && Enabled(s, Accept(fd))
    ensures JoinWired(s, net, fd, net.size + 1, Step(s, Accept(fd)))
  {
    hide Enabled;
    NextIdIsNext(s, net, fd);
    EmptyTogether(s, net);
    AcceptSends(s, fd, fd);
    forall i | i in net.node
      ensures s.reg.fdById[i] in Step(s, Accept(fd)).outbox
      ensures Step(s, Accept(fd)).outbox[s.reg.fdById[i]] == net.node[i].down + [UserJoined(net.size + 1, [])]
    {
      AcceptWiresOne(s, net, fd, i);
    }
  }

  lemma AcceptWiresOne(s: Server, net: Net, fd: Fd, i: nat)
    requires Coupled(s, net) && Shape(net) && Enabled(s, Accept(fd)) && i in net.node
    ensures s.reg.fdById[i] in Step(s, Accept(fd)).outbox
    ensures Step(s, Accept(fd)).outbox[s.reg.fdById[i]] == net.node[i].down + [UserJoined(net.size + 1, [])]
  {
    NextIdIsNext(s, net, fd);
    LiveConnection(s, net, i);
    AcceptSends(s, fd, s.reg.fdById[i]);
    hide Step, AllocatedId;
  }

  lemma ConnectJoins(cipher: Cipher, s: Server, net: Net, secret: seq<Byte>, random: seq<Byte>, saved: Option<seq<Byte>>, fd: Fd, s': Server, net': Net)
    requires Valid(s) && Connects(cipher, s, net, secret, random, saved, fd, s', net')
    requires JoinWired(s, net, fd, net.size + 1, s') && AllocatedId(s) == net.size + 1 < U32_LIMIT
    ensures JoinsTo(cipher, net, secret, random, saved, net')
  {
    hide Valid, Step, Enabled, AllocatedId;
    var x := net.size + 1;
    assert net'.node[x] == NewNode(cipher, x, secret, random, saved);
    forall i | i in net.node && i != x
      ensures net'.node[i] == net.node[i].(down := net.node[i].down + [UserJoined(x, [])])
    {
      assert s.reg.fdById[i] in s'.outbox;
    }
  }

  lemma ConnectWires(cipher: Cipher, s: Server, net: Net, secret: seq<Byte>, random: seq<Byte>, saved: Option<seq<Byte>>, fd: Fd, s': Server, net': Net)
    requires Valid(s) && Connects(cipher, s, net, secret, random, saved, fd, s', net') && Wired(s, net)
    requires JoinWired(s, net, fd, net.size + 1, s') && AllocatedId(s) == net.size + 1
    ensures Wired(s', net')
  {
    hide Valid, Step, Enabled, AllocatedId;
    forall i | i in net'.node
      ensures s'.reg.fdById[i] in s'.outbox && net'.node[i].down == s'.outbox[s'.reg.fdById[i]]
    {
      if i != net.size + 1 {
        assert s.reg.fdById[i] in s'.outbox;
      }
    }
  }

  lemma ConnectIsJoin(cipher: Cipher, s: Server, net: Net, secret: seq<Byte>, random: seq<Byte>, saved: Option<seq<Byte>>, fd: Fd, s': Server, net': Net)
    requires Coupled(s, net) && Shape(net) && Connects(cipher, s, net, secret, random, saved, fd, s', net')
    ensures JoinsTo(cipher, net, secret, random, saved, net') && Coupled(s', net')
  {
    hide Valid, Step, Enabled, AllocatedId, Wired, JoinWired, JoinsTo, Shape;
    NextIdIsNext(s, net, fd);
    StepKeepsValid(s, Accept(fd));
    AcceptWires(s, net, fd);
    ConnectJoins(cipher, s, net, secret, random, saved, fd, s', net');
    ConnectWires(cipher, s, net, secret, random, saved, fd, s', net');
  }

  lemma LiveConnection(s: Server, net: Net, i: nat)
    requires Coupled(s, net) && i in net.node
    ensures s.reg.ValidIds() && i in s.reg.fdById
    ensures s.reg.fdById[i] in s.reg.clients && s.reg.clients[s.reg.fdById[i]].id == i
  {
  }

  // ----- serving -----

  /** Something the server hands client i on account of message m of client x is a proper answer to it. */
  ghost predicate AnswersTo(s: Server, net: Net, x: nat, m: AppMessage, i: nat)
    requires Valid(s) && x in s.reg.fdById && i in s.reg.fdById
  {
    exists ms :: Appends(s, Data(s.reg.fdById[x], Received(m)), s.reg.fdById[i], ms) && Answers(net, x, m, i, ms)
  }

  lemma AnswerIs(s: Server, net: Net, x: nat, m: AppMessage, i: nat, ms: seq<AppMessage>)
    requires Valid(s) && x in s.reg.fdById && i in s.reg.fdById
    requires Appends(s, Data(s.reg.fdById[x], Received(m)), s.reg.fdById[i], ms) && Answers(net, x, m, i, ms)
    ensures AnswersTo(s, net, x, m, i)
  {
  }

  lemma ErrorAnswers(s: Server, net: Net, x: nat, m: AppMessage, i: nat)
    requires Valid(s) && x in s.reg.fdById && i in s.reg.fdById && !Relayable(net, m)
    requires RepliesError(s, Data(s.reg.fdById[x], Received(m)), s.reg.fdById[i])
    ensures AnswersTo(s, net, x, m, i)
  {
    var e, g := Data(s.reg.fdById[x], Received(m)), s.reg.fdById[i];
    var text :| |text| <= MAX_U16_COUNT && Appends(s, e, g, if g == e.fd then [Error(text)] else []);
    AnswerIs(s, net, x, m, i, if g == e.fd then [Error(text)] else []);
  }

  /** The message is dispatched and client i has a connection of its own. */
  lemma SenderIsLive(s: Server, net: Net, x: nat, m: AppMessage, i: nat)
    requires Coupled(s, net) && x in net.node && i in net.node && WellFormed(m)
    ensures var e, g := Data(s.reg.fdById[x], Received(m)), s.reg.fdById[i];
            && Enabled(s, e) && Dispatches(s, e) && g in s.reg.clients
            && s.reg.clients[e.fd].id == x && s.reg.clients[g].id == i && (g == e.fd <==> i == x)
  {
  }

  lemma RegisterAnswers(s: Server, net: Net, x: nat, m: AppMessage, i: nat)
    requires Coupled(s, net) && x in net.node && i in net.node && WellFormed(m) && m.Register?
    ensures AnswersTo(s, net, x, m, i)
  {
    var e, g := Data(s.reg.fdById[x], Received(m)), s.reg.fdById[i];
    SenderIsLive(s, net, x, m, i);
    RegisterSends(s, e, g);
    hide Step, Valid;
    if MayTakeNickname(s.reg, e.fd, m.nickname) {
      AnswerIs(s, net, x, m, i, if g == e.fd then [] else [UserJoined(x, m.nickname)]);
    } else {
      ErrorAnswers(s, net, x, m, i);
    }
  }

  lemma ListAnswers(s: Server, net: Net, x: nat, i: nat)
    requires Coupled(s, net) && x in net.node && i in net.node
    ensures AnswersTo(s, net, x, ListUsers, i)
  {
    var e, g := Data(s.reg.fdById[x], Received(ListUsers)), s.reg.fdById[i];
    SenderIsLive(s, net, x, ListUsers, i);
    ListUsersSends(s, e, g);
    hide Step, Valid;
    if |SortedUsers(s.reg.Names())| <= MAX_U16_COUNT {
      AnswerIs(s, net, x, ListUsers, i, if g == e.fd then [UsersList(SortedUsers(s.reg.Names()))] else []);
    } else {
      ErrorAnswers(s, net, x, ListUsers, i);
    }
  }

  lemma ChatAnswers(s: Server, net: Net, x: nat, m: AppMessage, i: nat)
    requires Coupled(s, net) && x in net.node && i in net.node && WellFormed(m) && m.Chat?
    ensures AnswersTo(s, net, x, m, i)
  {
    var e, g := Data(s.reg.fdById[x], Received(m)), s.reg.fdById[i];
    SenderIsLive(s, net, x, m, i);
    hide Step, Valid, Wired;
    var delivered := Deliver(x, m.chat.text);
    if m.chat.recipientTag == RECIPIENT_BROADCAST {
      BroadcastSends(s, e, m.chat, ChatRelay, g);
      AnswerIs(s, net, x, m, i, if g != e.fd then [delivered] else []);
    } else {
      UnicastSends(s, e, m.chat, ChatRelay, g);
      if id: nat :| Addressed(s, m.chat, id) {
        AnswerIs(s, net, x, m, i, if i == id then [delivered] else []);
      } else {
        ErrorAnswers(s, net, x, m, i);
      }
    }
  }

  lemma OfferAddresses(s: Server, net: Net, x: nat, m: AppMessage, p: nat)
    requires Coupled(s, net) && (m.KeyOffer? || m.RoomKeyOffer?) && p < U32_LIMIT && m.chat == ById(x, p, m.chat.text)
    ensures Target(m) == p
    ensures forall id: nat :: Addressed(s, m.chat, id) <==> id == p && p in net.node
  {
  }

  lemma KeyAnswers(s: Server, net: Net, x: nat, m: AppMessage, i: nat, p: nat)
    requires Coupled(s, net) && x in net.node && i in net.node && WellFormed(m) && (m.KeyOffer? || m.RoomKeyOffer?)
    requires p < U32_LIMIT && m.chat == ById(x, p, m.chat.text)
    ensures AnswersTo(s, net, x, m, i)
  {
    hide Step, Valid, Wired, Target, Addressed, WellFormed, Answers, Appends, RepliesError;
    LiveConnection(s, net, x);
    LiveConnection(s, net, i);
    var e, g := Data(s.reg.fdById[x], Received(m)), s.reg.fdById[i];
    var relay := if m.KeyOffer? then KeyRelay else RoomRelay;
    SenderIsLive(s, net, x, m, i);
    UnicastSends(s, e, m.chat, relay, g);
    OfferAddresses(s, net, x, m, p);
    if p in net.node {
      assert Addressed(s, m.chat, p);
      RelayAnswers(net, x, m, i);
      AnswerIs(s, net, x, m, i, if i == p then [RelayedAs(x, m)] else []);
    } else {
      ErrorAnswers(s, net, x, m, i);
    }
  }

  lemma RelayAnswers(net: Net, x: nat, m: AppMessage, i: nat)
    requires (m.KeyOffer? || m.RoomKeyOffer?) && Target(m) in net.node
    ensures Answers(net, x, m, i, if i == Target(m) then [RelayedAs(x, m)] else [])
  {
  }

  lemma SealedRoomKeySize(cipher: Cipher, net: Net, x: nat, y: nat, text: seq<Byte>)
    requires Lawful(cipher) && AuthInv(cipher, net) && x in net.node && y in net.node
    requires SealedFor(cipher, SecretsOf(net)[x], SecretsOf(net)[y], RoomKeys(net), text)
    ensures |text| == KEY_SIZE + SEAL_OVERHEAD
  {
    hide NodeOk, RoomKeys;
    RoomKeysHaveSize(cipher, net);
    var secrets := SecretsOf(net);
    var nonce, key :| key in RoomKeys(net) && text == Seal(cipher, secrets[x], cipher.publicOf(secrets[y]), nonce, key);
  }

  /** Keys and sealed room keys fit their messages. */
  lemma OffersFit(cipher: Cipher, net: Net, x: nat, m: AppMessage)
    requires Lawful(cipher) && AuthInv(cipher, net) && x in net.node && UpOk(cipher, SecretsOf(net), RoomKeys(net), x, m)
    ensures WellFormed(m)
    ensures m.KeyOffer? || m.RoomKeyOffer? ==> m.chat == ById(x, Target(m), m.chat.text) && Target(m) < U32_LIMIT
  {
    if m.RoomKeyOffer? {
      SealedRoomKeySize(cipher, net, x, Target(m), m.chat.text);
    }
  }

  /** The server's handlers answer every message a client may have sent as module Gossip says. */
  lemma ServerAnswers(cipher: Cipher, s: Server, net: Net, x: nat, m: AppMessage, i: nat)
    requires Lawful(cipher) && AuthInv(cipher, net) && Coupled(s, net) && x in net.node && i in net.node
    requires UpOk(cipher, SecretsOf(net), RoomKeys(net), x, m)
    ensures AnswersTo(s, net, x, m, i)
  {
    hide AuthInv, Valid, Wired, Answers, Appends, WellFormed, AnswersTo, ById, Target;
    OffersFit(cipher, net, x, m);
    match m
    case Register(_) => RegisterAnswers(s, net, x, m, i);
    case ListUsers => ListAnswers(s, net, x, i);
    case Chat(_) => ChatAnswers(s, net, x, m, i);
    case KeyOffer(_) => KeyAnswers(s, net, x, m, i, Target(m));
    case RoomKeyOffer(_) => KeyAnswers(s, net, x, m, i, Target(m));
  }

  /** Handling a message changes no id: only outboxes, and perhaps one nickname. */
  lemma DispatchKeepsIds(s: Server, e: Event)
    requires Valid(s) && Enabled(s, e) && Dispatches(s, e)
    ensures var s' := Step(s, e);
            s'.nextId == s.nextId && s'.free == s.free && s'.banned == s.banned && s'.reg.fdById == s.reg.fdById
  {
    if GivesNickname(s, e) {
      assert Step(s, e) == Registered(s, e.fd, e.incoming.message.nickname);
    } else {
      DispatchOrigin(s, e, e.fd);
    }
  }

  /** The first message of client x comes off its connection and is one the server can handle. */
  lemma ServesOne(cipher: Cipher, s: Server, net: Net, x: nat, i: nat)
    requires Lawful(cipher) && AuthInv(cipher, net) && Coupled(s, net)
    requires x in net.node && net.node[x].up != [] && i in net.node
    ensures Enabled(s, Data(s.reg.fdById[x], Received(net.node[x].up[0])))
    ensures Dispatches(s, Data(s.reg.fdById[x], Received(net.node[x].up[0])))
    ensures AnswersTo(s, net, x, net.node[x].up[0], i)
  {
    var m := net.node[x].up[0];
    assert UpOk(cipher, SecretsOf(net), RoomKeys(net), x, m) by {
      assert NodeOk(cipher, SecretsOf(net), RoomKeys(net), x, net.node[x]);
    }
    hide Valid, AuthInv, UpOk, Enabled, Dispatches, AnswersTo;
    OffersFit(cipher, net, x, m);
    SenderIsLive(s, net, x, m, i);
    ServerAnswers(cipher, s, net, x, m, i);
  }

  lemma AnswerArrives(s: Server, net: Net, x: nat, i: nat, s': Server, net': Net)
    requires Coupled(s, net) && Handles(s, net, x, s', net') && i in net.node
    requires AnswersTo(s, net, x, net.node[x].up[0], i)
    ensures s.reg.fdById[i] in s'.outbox && net'.node[i].down == s'.outbox[s.reg.fdById[i]]
    ensures Answered(net, x, i, net'.node[i])
  {
    hide Step, Valid, Answers;
    var e, g, m := Data(s.reg.fdById[x], Received(net.node[x].up[0])), s.reg.fdById[i], net.node[x].up[0];
    var ms :| Appends(s, e, g, ms) && Answers(net, x, m, i, ms);
    assert s'.outbox[g] == net.node[i].down + ms;
    assert net'.node[i].down[|net.node[i].down|..] == ms;
  }

  /** Everyone's outbox after a message of client x has been handled. */
  ghost predicate AllAnswered(s: Server, net: Net, x: nat, s': Server, net': Net)
    requires Valid(s) && Handles(s, net, x, s', net')
  {
    forall i :: i in net.node ==>
      && i in s.reg.fdById && s.reg.fdById[i] in s'.outbox && net'.node[i].down == s'.outbox[s.reg.fdById[i]]
      && Answered(net, x, i, net'.node[i])
  }

  lemma AnswersArrive(cipher: Cipher, s: Server, net: Net, x: nat, s': Server, net': Net)
    requires Lawful(cipher) && AuthInv(cipher, net) && Coupled(s, net) && Handles(s, net, x, s', net')
    ensures AllAnswered(s, net, x, s', net')
  {
    hide Valid, AuthInv, Answered, AnswersTo, Enabled, Dispatches, Step;
    forall i | i in net.node
      ensures s.reg.fdById[i] in s'.outbox && net'.node[i].down == s'.outbox[s.reg.fdById[i]]
      ensures Answered(net, x, i, net'.node[i])
    {
      ServesOne(cipher, s, net, x, i);
      AnswerArrives(s, net, x, i, s', net');
    }
  }

  lemma HandleKeepsIds(cipher: Cipher, s: Server, net: Net, x: nat, s': Server, net': Net)
    requires Lawful(cipher) && AuthInv(cipher, net) && Coupled(s, net) && Handles(s, net, x, s', net')
    ensures Valid(s') && s'.nextId == s.nextId && s'.free == s.free && s'.banned == s.banned && s'.reg.fdById == s.reg.fdById
  {
    hide Step, Valid, AuthInv, AnswersTo, Enabled, Dispatches;
    var e := Data(s.reg.fdById[x], Received(net.node[x].up[0]));
    ServesOne(cipher, s, net, x, x);
    StepKeepsValid(s, e);
    DispatchKeepsIds(s, e);
  }

  lemma HandleIsServe(cipher: Cipher, s: Server, net: Net, x: nat, s': Server, net': Net)
    requires Lawful(cipher) && AuthInv(cipher, net) && Coupled(s, net) && Handles(s, net, x, s', net')
    ensures ServesTo(net, x, net') && Coupled(s', net')
  {
    hide Step, Valid, AuthInv, Answered;
    AnswersArrive(cipher, s, net, x, s', net');
    HandleKeepsIds(cipher, s, net, x, s', net');
  }

  /** One step of the whole system is one step of the exchange, and keeps clients and server in agreement. */
  lemma WorldStepRefines(cipher: Cipher, s: Server, net: Net, a: Action, fd: Fd, s': Server, net': Net)
    requires Lawful(cipher) && Inv(cipher, net) && Coupled(s, net) && WorldNext(cipher, s, net, a, fd, s', net')
    ensures Next(cipher, net, a, net') && Inv(cipher, net') && Coupled(s', net')
  {
    hide Valid, AuthInv, Shape, Connects, Handles, JoinsTo, ServesTo, Moved, CanMove, SendsRoomInOrder;
    if a.Joins? {
      ShapeOf(cipher, net);
      ConnectIsJoin(cipher, s, net, a.secret, a.random, a.saved, fd, s', net');
    } else if a.Serves? {
      HandleIsServe(cipher, s, net, a.x, s', net');
    } else {
      MovesKeepWires(cipher, s, net, a, net');
    }
    StepKeepsInv(cipher, net, a, net');
  }

  lemma ShapeOf(cipher: Cipher, net: Net)
    requires AuthInv(cipher, net)
    ensures Shape(net)
  {
  }

  lemma MovesKeepWires(cipher: Cipher, s: Server, net: Net, a: Action, net': Net)
    requires Wired(s, net) && IsLocal(a) && MovesTo(cipher, net, a, net')
    ensures Wired(s, net') && net'.size == net.size
  {
    assert net'.node[a.x].down == net.node[a.x].down;
  }

  // ----- runs of the whole system -----

  /** The servers of a run of the system beside its nets and actions, and the descriptors accept returned. */
  datatype Chronicle = Chronicle(servers: seq<Server>, fds: seq<Fd>, run: Run)

  ghost predicate IsChronicle(cipher: Cipher, h: Chronicle) {
    && |h.servers| == |h.run.nets| == |h.run.actions| + 1 && |h.fds| == |h.run.actions|
    && h.servers[0] == Initial() && h.run.nets[0] == EmptyNet()
    && forall j :: 0 <= j < |h.run.actions| ==>
         WorldFollows(cipher, h.servers[j], h.run.nets[j], h.run.actions[j], h.fds[j], h.servers[j + 1], h.run.nets[j + 1])
  }

  lemma StartsCoupled()
    ensures Coupled(Initial(), EmptyNet())
  {
  }

  lemma StartsInv(cipher: Cipher)
    requires Lawful(cipher)
    ensures Inv(cipher, EmptyNet())
  {
    ReachesInv(cipher, Run([EmptyNet()], []), 0);
  }

  lemma CoupledIsValid(s: Server, net: Net)
    requires Coupled(s, net)
    ensures Valid(s)
  {
  }

  lemma {:induction false} StaysCoupled(cipher: Cipher, h: Chronicle, j: nat)
    requires Lawful(cipher) && IsChronicle(cipher, h) && j < |h.run.nets|
    ensures Coupled(h.servers[j], h.run.nets[j]) && Inv(cipher, h.run.nets[j])
    ensures forall i :: 0 <= i < j ==> Next(cipher, h.run.nets[i], h.run.actions[i], h.run.nets[i + 1])
  {
    hide Coupled, Inv, Next, WorldNext, Valid;
    if j == 0 {
      StartsCoupled();
      StartsInv(cipher);
    } else {
      StaysCoupled(cipher, h, j - 1);
      assert WorldFollows(cipher, h.servers[j - 1], h.run.nets[j - 1], h.run.actions[j - 1], h.fds[j - 1], h.servers[j], h.run.nets[j]);
      CoupledIsValid(h.servers[j - 1], h.run.nets[j - 1]);
      WorldStepRefines(cipher, h.servers[j - 1], h.run.nets[j - 1], h.run.actions[j - 1], h.fds[j - 1], h.servers[j], h.run.nets[j]);
    }
  }

  /**
   * Every run of the server's code with its clients is a run of the exchange: the outboxes the real
   * handlers fill are, message for message, what module Gossip says the clients are sent.
   */
  lemma WorldRefinesGossip(cipher: Cipher, h: Chronicle)
    requires Lawful(cipher) && IsChronicle(cipher, h)
    ensures IsRun(cipher, h.run)
    ensures forall j :: 0 <= j < |h.servers| ==> Coupled(h.servers[j], h.run.nets[j])
  {
    hide Coupled, Inv, Next, WorldNext, Valid;
    forall j | 0 <= j < |h.servers|
      ensures Coupled(h.servers[j], h.run.nets[j])
    {
      StaysCoupled(cipher, h, j);
    }
    StaysCoupled(cipher, h, |h.run.actions|);
  }

  /**
   * The whole system converges: whenever nothing is under way, everybody holds everybody's public key
   * and a room key, provided no send failed, nobody ever asked for a key by an id that was not connected
   * yet and the first client's user never asked by hand; and if nobody had saved another room key, the
   * one everybody holds is the creator's.
   */
  lemma WorldConverges(cipher: Cipher, h: Chronicle, j: nat)
    requires Lawful(cipher) && IsChronicle(cipher, h) && Faultless(h.run, j)
    requires |h.run.nets| == |h.run.actions| + 1 && forall i :: 0 <= i < j ==> Polite(h.run.nets[i], h.run.actions[i])
    requires Quiescent(h.run.nets[j])
    ensures AllExchanged(cipher, h.run.nets[j])
    ensures forall y :: y in h.run.nets[j].node ==> h.run.nets[j].node[y].c.store.room.Some?
    ensures OneRoomKey(h.run.nets[j]) ==> Converged(cipher, h.run.nets[j])
  {
    hide WorldFollows, Next, Polite, Quiescent, Converged, AllExchanged, OneRoomKey;
    WorldRefinesGossip(cipher, h);
    PoliteRunsConverge(cipher, h.run, j);
  }
}
