/**
 * The exchange does not always converge, and not always to one room key. Three runs of the server with its
 * clients that come to rest that way: one where a user asks for the key of an id that is not connected
 * yet, one where the receive thread overtakes an offer that the input thread has marked but not sent,
 * and one where two clients with different saved room keys swap them. GossipConvergence says exactly
 * when this happens.
 */
module WorldLosses {
  import opened Bytes
  import opened Messages
  import opened Registry
  import opened Server
  import opened ServerSafety
  import opened ServerSends
  import opened Cipher
  import opened Client
  import opened Gossip
  import opened GossipTokens
  import opened GossipPairs
  import opened GossipAuth
  import opened GossipConvergence
  import opened World

  /** The run of the whole system ends in net, and no send fails in it. */
  ghost predicate Reaches(cipher: Cipher, h: Chronicle, net: Net) {
    IsChronicle(cipher, h) && Faultless(h.run, |h.run.actions|) && h.run.nets[|h.run.actions|] == net
  }

  ghost predicate Reachable(cipher: Cipher, net: Net) {
    Lawful(cipher) && exists h :: Reaches(cipher, h, net)
  }

  lemma StartReachable(cipher: Cipher)
    requires Lawful(cipher)
    ensures Reachable(cipher, EmptyNet())
  {
    assert Reaches(cipher, Chronicle([Initial()], [], Run([EmptyNet()], [])), EmptyNet());
  }

  /** A server that the clients of a reachable net can be connected to. */
  ghost predicate Serving(cipher: Cipher, h: Chronicle, s: Server, net: Net) {
    && Lawful(cipher) && Reaches(cipher, h, net) && h.servers[|h.run.actions|] == s
    && Coupled(s, net) && Inv(cipher, net)
  }

  lemma TheServer(cipher: Cipher, net: Net) returns (h: Chronicle, s: Server)
    requires Reachable(cipher, net)
    ensures Serving(cipher, h, s, net)
  {
    hide WorldFollows, Coupled, Inv, Next;
    h :| Reaches(cipher, h, net);
    s := h.servers[|h.run.actions|];
    StaysCoupled(cipher, h, |h.run.actions|);
  }

  lemma OneMoreStep(cipher: Cipher, h: Chronicle, s: Server, net: Net, a: Action, fd: Fd, s': Server, net': Net)
    requires Serving(cipher, h, s, net) && Valid(s) && WorldNext(cipher, s, net, a, fd, s', net') && !SendFails(a)
    ensures Reachable(cipher, net')
  {
    hide WorldNext, Valid, Coupled, Inv;
    var h' := Chronicle(h.servers + [s'], h.fds + [fd], Run(h.run.nets + [net'], h.run.actions + [a]));
    forall j | 0 <= j < |h'.run.actions|
      ensures WorldFollows(cipher, h'.servers[j], h'.run.nets[j], h'.run.actions[j], h'.fds[j], h'.servers[j + 1], h'.run.nets[j + 1])
    {
      if j < |h.run.actions| {
        assert WorldFollows(cipher, h.servers[j], h.run.nets[j], h.run.actions[j], h.fds[j], h.servers[j + 1], h.run.nets[j + 1]);
      }
    }
    assert Reaches(cipher, h', net');
  }

  // ----- what the whole system can do -----

  lemma CanMoveOn(cipher: Cipher, net: Net, a: Action, net': Net)
    requires Reachable(cipher, net) && IsLocal(a) && !SendFails(a) && MovesTo(cipher, net, a, net')
    ensures Reachable(cipher, net')
  {
    hide Reachable, Serving, MovesTo, Valid;
    var h, s := TheServer(cipher, net);
    ServerIsValid(cipher, h, s, net);
    OneMoreStep(cipher, h, s, net, a, 0, s, net');
  }

  lemma ServerIsValid(cipher: Cipher, h: Chronicle, s: Server, net: Net)
    requires Serving(cipher, h, s, net)
    ensures Valid(s) && Coupled(s, net) && AuthInv(cipher, net) && Shape(net) && Lawful(cipher)
  {
    hide Valid, NodeOk;
  }

  lemma SomeOf<T>(s: set<T>) returns (t: T)
    requires s != {}
    ensures t in s
  {
    t :| t in s;
  }

  /** There is always a descriptor that is not open. */
  lemma {:induction false} FreshFd(fds: set<Fd>) returns (fd: Fd)
    ensures fd >= 0 && forall f :: f in fds ==> f < fd
    decreases |fds|
  {
    if fds == {} {
      fd := 0;
    } else {
      var f := SomeOf(fds);
      var above := FreshFd(fds - {f});
      fd := if above > f then above else f + 1;
      assert forall g :: g in fds ==> g == f || g in fds - {f};
    }
  }

  lemma SpareId(s: Server, net: Net)
    requires Coupled(s, net) && Shape(net) && net.size < MAX_CLIENT_ID
    ensures HasSpareId(s)
  {
    hide Valid;
    assert net.size + 1 !in s.reg.fdById;
  }

  /** As long as ids last, a client can join. */
  lemma CanConnect(cipher: Cipher, net: Net, secret: seq<Byte>, random: seq<Byte>, saved: Option<seq<Byte>>, net': Net)
    requires Reachable(cipher, net) && JoinsTo(cipher, net, secret, random, saved, net') && net.size < MAX_CLIENT_ID
    ensures Reachable(cipher, net')
  {
    hide Reachable, Serving, Valid, JoinsTo, Coupled, Shape, Connects, Accepted;
    var h, s := TheServer(cipher, net);
    ServerIsValid(cipher, h, s, net);
    SpareId(s, net);
    var fd := FreshFd(s.reg.clients.Keys);
    JoinIsConnect(cipher, s, net, secret, random, saved, fd, net');
    OneMoreStep(cipher, h, s, net, Joins(secret, random, saved), fd, Step(s, Accept(fd)), net');
  }

  lemma JoinIsConnect(cipher: Cipher, s: Server, net: Net, secret: seq<Byte>, random: seq<Byte>, saved: Option<seq<Byte>>, fd: Fd, net': Net)
    requires Coupled(s, net) && Shape(net) && Enabled(s, Accept(fd)) && JoinsTo(cipher, net, secret, random, saved, net')
    ensures Connects(cipher, s, net, secret, random, saved, fd, Step(s, Accept(fd)), net')
  {
    AcceptWires(s, net, fd);
    NextIdIsNext(s, net, fd);
    AcceptKeepsOpen(s, fd);
    hide Valid, Step, Enabled, AllocatedId, Shape;
    var s', x := Step(s, Accept(fd)), net.size + 1;
    forall i | i in net.node && i != x && i in s.reg.fdById && s.reg.fdById[i] in s'.outbox
      ensures net'.node[i] == Addressee(net.node[i], s'.outbox[s.reg.fdById[i]], false)
    {
      assert s'.outbox[s.reg.fdById[i]] == net.node[i].down + [UserJoined(x, [])];
    }
  }

  lemma AcceptKeepsOpen(s: Server, fd: Fd)
    requires Valid(s) && Enabled(s, Accept(fd))
    ensures fd in Step(s, Accept(fd)).outbox && Step(s, Accept(fd)).outbox.Keys >= s.outbox.Keys
  {
    AcceptedShape(s, fd);
    hide Accepted;
  }

  /** The server can relay what it can relay: there is only one answer to a key or a room key. */
  lemma CanRelay(cipher: Cipher, net: Net, x: nat, net': Net)
    requires Reachable(cipher, net) && ServesTo(net, x, net') && Relayable(net, net.node[x].up[0])
    ensures Reachable(cipher, net')
  {
    hide Reachable, Serving, Valid, Answered, Coupled, AuthInv, Handles, Shape;
    var h, s := TheServer(cipher, net);
    ServerIsValid(cipher, h, s, net);
    RelayIsHandled(cipher, s, net, x, net');
    OneMoreStep(cipher, h, s, net, Serves(x), 0, Step(s, Data(s.reg.fdById[x], Received(net.node[x].up[0]))), net');
  }

  lemma RelayIsHandled(cipher: Cipher, s: Server, net: Net, x: nat, net': Net)
    requires Lawful(cipher) && AuthInv(cipher, net) && Coupled(s, net) && ServesTo(net, x, net') && Relayable(net, net.node[x].up[0])
    ensures x in s.reg.fdById && Handles(s, net, x, Step(s, Data(s.reg.fdById[x], Received(net.node[x].up[0]))), net')
  {
    hide Valid, Step, AuthInv, AnswersTo, Answered, Enabled, Dispatches;
    var e := Data(s.reg.fdById[x], Received(net.node[x].up[0]));
    forall i | i in net.node && i in s.reg.fdById && s.reg.fdById[i] in Step(s, e).outbox
      ensures net'.node[i] == Addressee(net.node[i], Step(s, e).outbox[s.reg.fdById[i]], i == x)
    {
      ServesOne(cipher, s, net, x, i);
      assert Answered(net, x, i, net'.node[i]);
      OneAnswer(s, net, x, i, net'.node[i]);
    }
    WiredFd(s, net, x);
  }

  lemma WiredFd(s: Server, net: Net, x: nat)
    requires Coupled(s, net) && x in net.node
    ensures x in s.reg.fdById
  {
  }

  lemma OneAnswer(s: Server, net: Net, x: nat, i: nat, n': Node)
    requires Coupled(s, net) && x in net.node && net.node[x].up != [] && Relayable(net, net.node[x].up[0]) && i in net.node
    requires AnswersTo(s, net, x, net.node[x].up[0], i) && Answered(net, x, i, n')
    ensures var outbox := Step(s, Data(s.reg.fdById[x], Received(net.node[x].up[0]))).outbox;
            s.reg.fdById[i] in outbox && n' == Addressee(net.node[i], outbox[s.reg.fdById[i]], i == x)
  {
    hide Valid, Step, Target;
    var e, g, m := Data(s.reg.fdById[x], Received(net.node[x].up[0])), s.reg.fdById[i], net.node[x].up[0];
    var ms :| Appends(s, e, g, ms) && Answers(net, x, m, i, ms);
    assert Step(s, e).outbox[g] == net.node[i].down + ms;
    assert n'.down == net.node[i].down + n'.down[|net.node[i].down|..];
  }

  /** What the server answers to an offer for an id nobody has. */
  function Unknown(p: nat): AppMessage {
    Error(Refusal(false, Decimal(p)))
  }

  /** The server can refuse an offer for an id nobody has, and then tells the sender which. */
  lemma CanBounce(cipher: Cipher, net: Net, x: nat)
    requires Reachable(cipher, net) && x in net.node && net.node[x].up != []
    requires net.node[x].up[0].KeyOffer? && Target(net.node[x].up[0]) !in net.node
    ensures Reachable(cipher, Bounced(net, x))
  {
    hide Reachable, Serving, Valid, Coupled, AuthInv, Handles, Shape, Bounced;
    var h, s := TheServer(cipher, net);
    ServerIsValid(cipher, h, s, net);
    BounceIsHandled(cipher, s, net, x);
    OneMoreStep(cipher, h, s, net, Serves(x), 0, Step(s, Data(s.reg.fdById[x], Received(net.node[x].up[0]))), Bounced(net, x));
  }

  function Bounced(net: Net, x: nat): Net
    requires x in net.node && net.node[x].up != []
  {
    var n, p := net.node[x], Target(net.node[x].up[0]);
    net.(bounced := net.bounced + {(x, p)}, node := net.node[x := n.(up := n.up[1..], down := n.down + [Unknown(p)])])
  }

  lemma BounceIsHandled(cipher: Cipher, s: Server, net: Net, x: nat)
    requires Lawful(cipher) && AuthInv(cipher, net) && Coupled(s, net) && x in net.node && net.node[x].up != []
    requires net.node[x].up[0].KeyOffer? && Target(net.node[x].up[0]) !in net.node
    ensures x in s.reg.fdById && Handles(s, net, x, Step(s, Data(s.reg.fdById[x], Received(net.node[x].up[0]))), Bounced(net, x))
  {
    hide Valid, Step, AuthInv, Target, Unknown;
    WiredFd(s, net, x);
    var e := Data(s.reg.fdById[x], Received(net.node[x].up[0]));
    forall i | i in net.node && i in s.reg.fdById && s.reg.fdById[i] in Step(s, e).outbox
      ensures Bounced(net, x).node[i] == Addressee(net.node[i], Step(s, e).outbox[s.reg.fdById[i]], i == x)
    {
      OneRefusal(cipher, s, net, x, i);
    }
  }

  lemma OneRefusal(cipher: Cipher, s: Server, net: Net, x: nat, i: nat)
    requires Lawful(cipher) && AuthInv(cipher, net) && Coupled(s, net) && x in net.node && net.node[x].up != [] && i in net.node
    requires net.node[x].up[0].KeyOffer? && Target(net.node[x].up[0]) !in net.node
    ensures var outbox := Step(s, Data(s.reg.fdById[x], Received(net.node[x].up[0]))).outbox;
            && s.reg.fdById[i] in outbox
            && outbox[s.reg.fdById[i]] == net.node[i].down + if i == x then [Unknown(Target(net.node[x].up[0]))] else []
  {
    var m := net.node[x].up[0];
    var e, g, p := Data(s.reg.fdById[x], Received(m)), s.reg.fdById[i], Target(m);
    ServesOne(cipher, s, net, x, i);
    OfferedById(cipher, net, x);
    SenderIsLive(s, net, x, m, i);
    hide Step, AuthInv, Target, Refusal, Valid, Answers, Appends, WellFormed, ById;
    assert p !in s.reg.fdById;
    RefusalByIdSends(s, e, m.chat, KeyRelay, g);
    AppendsIs(s, e, g, if g == e.fd then [Unknown(p)] else []);
  }

  lemma AppendsIs(s: Server, e: Event, g: Fd, ms: seq<AppMessage>)
    requires Valid(s) && Appends(s, e, g, ms) && !e.Accept? && g in s.outbox
    ensures g in Step(s, e).outbox && Step(s, e).outbox[g] == s.outbox[g] + ms
  {
    hide Step, Valid;
  }

  /** A KeyOffer on its way names its target by id. */
  lemma OfferedById(cipher: Cipher, net: Net, x: nat)
    requires AuthInv(cipher, net) && x in net.node && net.node[x].up != [] && net.node[x].up[0].KeyOffer?
    ensures var m := net.node[x].up[0];
            && WellFormed(m) ==> m.chat.recipientTag == RECIPIENT_BY_ID && |m.chat.recipientData| == 4 && ReadU32(m.chat.recipientData) == Target(m)
  {
    assert NodeOk(cipher, SecretsOf(net), RoomKeys(net), x, net.node[x]);
    assert UpOk(cipher, SecretsOf(net), RoomKeys(net), x, net.node[x].up[0]);
  }

  // ----- steps by what they lead to -----

  function WithNode(net: Net, x: nat, n: Node): Net {
    net.(node := net.node[x := n])
  }

  lemma Moves(cipher: Cipher, net: Net, a: Action, n': Node)
    requires Reachable(cipher, net) && IsLocal(a) && !SendFails(a) && a.x in net.node && CanMove(net.node[a.x], a)
    requires n' == Moved(cipher, net.node[a.x], a) && !SendsRoomInOrder(net.node[a.x], a)
    ensures Reachable(cipher, WithNode(net, a.x, n'))
  {
    hide Reachable;
    CanMoveOn(cipher, net, a, WithNode(net, a.x, n'));
  }

  /** The keys a client comes with have the right size. */
  predicate Sized(secret: seq<Byte>, random: seq<Byte>, saved: Option<seq<Byte>>) {
    |secret| == KEY_SIZE && |random| == KEY_SIZE && (saved.Some? ==> |saved.value| == KEY_SIZE)
  }

  /** The first client joins. */
  lemma FirstJoins(cipher: Cipher, secret: seq<Byte>, random: seq<Byte>, saved: Option<seq<Byte>>)
    requires Lawful(cipher) && Sized(secret, random, saved)
    ensures Reachable(cipher, Net(1, map[1 := NewNode(cipher, 1, secret, random, saved)], {}, {}))
  {
    hide Reachable;
    StartReachable(cipher);
    CanConnect(cipher, EmptyNet(), secret, random, saved, Net(1, map[1 := NewNode(cipher, 1, secret, random, saved)], {}, {}));
  }

  /** A second client joins, and the first is told. */
  lemma SecondJoins(cipher: Cipher, net: Net, secret: seq<Byte>, random: seq<Byte>, saved: Option<seq<Byte>>)
    requires Reachable(cipher, net) && net.size == 1 && net.node.Keys == {1} && Sized(secret, random, saved)
    ensures Reachable(cipher, net.(size := 2, node := map[
                        1 := net.node[1].(down := net.node[1].down + [UserJoined(2, [])]),
                        2 := NewNode(cipher, 2, secret, random, saved)]))
  {
    hide Reachable;
    var net' := net.(size := 2, node := map[
      1 := net.node[1].(down := net.node[1].down + [UserJoined(2, [])]),
      2 := NewNode(cipher, 2, secret, random, saved)]);
    assert net'.node.Keys == net.node.Keys + {2};
    CanConnect(cipher, net, secret, random, saved, net');
  }

  /** The server relays the first message of x to the connected client y. */
  lemma RelayReaches(cipher: Cipher, net: Net, x: nat, y: nat)
    requires Reachable(cipher, net) && x in net.node && y in net.node && x != y && net.node[x].up != []
    requires Relayable(net, net.node[x].up[0]) && Target(net.node[x].up[0]) == y
    ensures Reachable(cipher, net.(node := net.node[x := net.node[x].(up := net.node[x].up[1..])]
                                                   [y := net.node[y].(down := net.node[y].down + [RelayedAs(x, net.node[x].up[0])])]))
  {
    hide Reachable;
    var m := net.node[x].up[0];
    var net' := net.(node := net.node[x := net.node[x].(up := net.node[x].up[1..])]
                                     [y := net.node[y].(down := net.node[y].down + [RelayedAs(x, m)])]);
    forall i | i in net.node
      ensures Answered(net, x, i, net'.node[i])
    {
      assert net'.node[i].down[|net.node[i].down|..] == if i == y then [RelayedAs(x, m)] else [];
    }
    CanRelay(cipher, net, x, net');
  }

  // ----- asking too early -----

  /** Client 1 after it has started as the creator of the room. */
  function Creator(cipher: Cipher, secret: seq<Byte>, random: seq<Byte>, saved: Option<seq<Byte>>): Node {
    Node(Client(1, KeyStore(secret, cipher.publicOf(secret), if saved.Some? then saved else Some(random), map[]), {}, EmptyView()),
         Idle, Ready, random, saved, [], [AssignId(1, true)], 1)
  }

  function Second(cipher: Cipher, secret: seq<Byte>, random: seq<Byte>, saved: Option<seq<Byte>>): Node {
    Node(Client(2, KeyStore(secret, cipher.publicOf(secret), saved, map[]), {}, EmptyView()), Idle, Ready, random, saved,
         [], [AssignId(2, false)], 1)
  }

  lemma CreatorReachable(cipher: Cipher, secret: seq<Byte>, random: seq<Byte>, saved: Option<seq<Byte>>)
    requires Lawful(cipher) && Sized(secret, random, saved)
    ensures Reachable(cipher, Net(1, map[1 := Creator(cipher, secret, random, saved)], {}, {}))
  {
    hide Reachable;
    FirstJoins(cipher, secret, random, saved);
    var net := Net(1, map[1 := NewNode(cipher, 1, secret, random, saved)], {}, {});
    Moves(cipher, net, Starts(1, None), Creator(cipher, secret, random, saved));
    assert WithNode(net, 1, Creator(cipher, secret, random, saved)) == Net(1, map[1 := Creator(cipher, secret, random, saved)], {}, {});
  }

  /** Client 1's user has typed "/key 2" with nobody there, and the offer has bounced. */
  function Refused(cipher: Cipher, secret: seq<Byte>, random: seq<Byte>): Node {
    var n := Creator(cipher, secret, random, None);
    n.(c := n.c.(offered := {2}), down := n.down + [Unknown(2)], taken := 2)
  }

  lemma RefusedReachable(cipher: Cipher, secret: seq<Byte>, random: seq<Byte>)
    requires Lawful(cipher) && Sized(secret, random, None)
    ensures Reachable(cipher, Net(1, map[1 := Refused(cipher, secret, random)], {(1, 2)}, {}))
  {
    hide Reachable, Refusal;
    CreatorReachable(cipher, secret, random, None);
    var n0 := Creator(cipher, secret, random, None);
    var net0 := Net(1, map[1 := n0], {}, {});
    var n1 := n0.(c := n0.c.(offered := {2}), tx := Sending(2));
    Moves(cipher, net0, OffersKey(1, 2), n1);
    var net1 := WithNode(net0, 1, n1);
    var n2 := n1.(tx := Ready, up := [OfferOf(n1, 2)]);
    Moves(cipher, net1, Posts(1), n2);
    var net2 := WithNode(net1, 1, n2);
    assert n2.up[1..] == [] && Target(n2.up[0]) == 2;
    CanBounce(cipher, net2, 1);
    var n3 := n2.(up := [], down := n2.down + [Unknown(2)]);
    var net3 := Net(1, map[1 := n3], {(1, 2)}, {});
    assert net3 == Bounced(net2, 1);
    var n4 := Refused(cipher, secret, random);
    Moves(cipher, net3, Takes(1), n4);
    assert WithNode(net3, 1, n4) == Net(1, map[1 := n4], {(1, 2)}, {});
  }

  /** Everything is quiet and the two clients do not know each other's key. */
  ghost predicate Strangers(net: Net) {
    && Quiescent(net) && net.node.Keys == {1, 2}
    && 2 !in net.node[1].c.store.peers && 1 !in net.node[2].c.store.peers
  }

  /** When client 2 finally arrives, client 1 does not offer its key: it believes it already has. */
  lemma EarlyRequestIsNeverRepaired(cipher: Cipher, secret1: seq<Byte>, secret2: seq<Byte>, random: seq<Byte>) returns (net: Net)
    requires Lawful(cipher) && |secret1| == |secret2| == |random| == KEY_SIZE
    ensures Reachable(cipher, net) && Strangers(net)
  {
    hide Reachable, Unknown;
    RefusedReachable(cipher, secret1, random);
    var net0 := Net(1, map[1 := Refused(cipher, secret1, random)], {(1, 2)}, {});
    SecondJoins(cipher, net0, secret2, random, None);
    var n0 := net0.node[1].(down := net0.node[1].down + [UserJoined(2, [])]);
    var net1 := net0.(size := 2, node := map[1 := n0, 2 := NewNode(cipher, 2, secret2, random, None)]);
    var second := Second(cipher, secret2, random, None);
    Moves(cipher, net1, Starts(2, None), second);
    var net2 := WithNode(net1, 2, second);
    var n1 := Took(cipher, n0, UserJoined(2, []));
    Moves(cipher, net2, Takes(1), n1);
    var net3 := WithNode(net2, 1, n1);
    var n2 := n1.(rx := Idle);
    Moves(cipher, net3, Continues(1, []), n2);
    net := WithNode(net3, 1, n2);
  }

  // ----- two clients -----

  /** The two clients and their connections can be like this, whatever room keys have been sent in order. */
  ghost predicate Pair(cipher: Cipher, n1: Node, n2: Node) {
    exists order :: Reachable(cipher, PairNet(n1, n2, order))
  }

  function PairNet(n1: Node, n2: Node, order: set<(nat, nat)>): Net {
    Net(2, map[1 := n1, 2 := n2], {}, order)
  }

  lemma IsPair(cipher: Cipher, n1: Node, n2: Node, order: set<(nat, nat)>)
    requires Reachable(cipher, PairNet(n1, n2, order))
    ensures Pair(cipher, n1, n2)
  {
  }

  lemma PairMoves(cipher: Cipher, n1: Node, n2: Node, a: Action, n': Node)
    requires Pair(cipher, n1, n2) && IsLocal(a) && !SendFails(a) && (a.x == 1 || a.x == 2)
    requires var n := if a.x == 1 then n1 else n2; CanMove(n, a) && n' == Moved(cipher, n, a)
    ensures if a.x == 1 then Pair(cipher, n', n2) else Pair(cipher, n1, n')
  {
    hide Reachable, CanMove, Moved;
    var order :| Reachable(cipher, PairNet(n1, n2, order));
    var n := if a.x == 1 then n1 else n2;
    var order' := if SendsRoomInOrder(n, a) then order + {(a.x, n.rx.peer)} else order;
    var net' := if a.x == 1 then PairNet(n', n2, order') else PairNet(n1, n', order');
    assert net'.node == PairNet(n1, n2, order).node[a.x := n'];
    CanMoveOn(cipher, PairNet(n1, n2, order), a, net');
  }

  lemma PairRelays(cipher: Cipher, n1: Node, n2: Node, x: nat)
    requires Pair(cipher, n1, n2) && (x == 1 || x == 2)
    requires var n := if x == 1 then n1 else n2;
             n.up != [] && (n.up[0].KeyOffer? || n.up[0].RoomKeyOffer?) && Target(n.up[0]) == 3 - x
    ensures if x == 1 then Pair(cipher, n1.(up := n1.up[1..]), n2.(down := n2.down + [RelayedAs(1, n1.up[0])]))
            else Pair(cipher, n1.(down := n1.down + [RelayedAs(2, n2.up[0])]), n2.(up := n2.up[1..]))
  {
    hide Reachable, Target;
    var order :| Reachable(cipher, PairNet(n1, n2, order));
    var net := PairNet(n1, n2, order);
    RelayReaches(cipher, net, x, 3 - x);
    var n1' := if x == 1 then n1.(up := n1.up[1..]) else n1.(down := n1.down + [RelayedAs(2, n2.up[0])]);
    var n2' := if x == 2 then n2.(up := n2.up[1..]) else n2.(down := n2.down + [RelayedAs(1, n1.up[0])]);
    assert PairNet(n1', n2', order).node == if x == 1 then net.node[1 := n1'][2 := n2'] else net.node[2 := n2'][1 := n1'];
    IsPair(cipher, n1', n2', order);
  }

  /** Client 1 has created the room and been told of client 2, which has started. */
  lemma PairStarts(cipher: Cipher, secret1: seq<Byte>, secret2: seq<Byte>, random: seq<Byte>, saved1: Option<seq<Byte>>, saved2: Option<seq<Byte>>)
    requires Lawful(cipher) && Sized(secret1, random, saved1) && Sized(secret2, random, saved2)
    ensures var n := Creator(cipher, secret1, random, saved1);
            Pair(cipher, n.(down := n.down + [UserJoined(2, [])]), Second(cipher, secret2, random, saved2))
  {
    hide Reachable;
    CreatorReachable(cipher, secret1, random, saved1);
    var creator := Creator(cipher, secret1, random, saved1);
    SecondJoins(cipher, Net(1, map[1 := creator], {}, {}), secret2, random, saved2);
    var n0, m0 := creator.(down := creator.down + [UserJoined(2, [])]), NewNode(cipher, 2, secret2, random, saved2);
    IsPair(cipher, n0, m0, {});
    PairMoves(cipher, n0, m0, Starts(2, None), Second(cipher, secret2, random, saved2));
  }

  // ----- overtaking -----

  /** Client 1's user has typed "/key 2": the mark is set, the offer is not sent; the rest of client 1 goes on. */
  function Holding(cipher: Cipher, secret: seq<Byte>, random: seq<Byte>): Node {
    var n := Creator(cipher, secret, random, None);
    n.(c := n.c.(offered := {2}, view := Named(EmptyView(), 2, [])), tx := Sending(2),
       down := [AssignId(1, true), UserJoined(2, [])], taken := 2)
  }

  lemma HoldingReachable(cipher: Cipher, secret1: seq<Byte>, secret2: seq<Byte>, random: seq<Byte>)
    requires Lawful(cipher) && |secret1| == |secret2| == |random| == KEY_SIZE
    ensures Pair(cipher, Holding(cipher, secret1, random), Second(cipher, secret2, random, None))
  {
    hide Pair;
    PairStarts(cipher, secret1, secret2, random, None, None);
    var creator, second := Creator(cipher, secret1, random, None), Second(cipher, secret2, random, None);
    var n0 := creator.(down := creator.down + [UserJoined(2, [])]);
    var n1 := n0.(c := n0.c.(offered := {2}), tx := Sending(2));
    PairMoves(cipher, n0, second, OffersKey(1, 2), n1);
    var n2 := Took(cipher, n1, UserJoined(2, []));
    PairMoves(cipher, n1, second, Takes(1), n2);
    PairMoves(cipher, n2, second, Continues(1, []), Holding(cipher, secret1, random));
  }

  /** Client 2's user asks for client 1's key, which makes client 1's receive thread send the room key at once. */
  function Overtaken(cipher: Cipher, secret: seq<Byte>, random: seq<Byte>, public2: seq<Byte>, nonce: seq<Byte>): Node {
    var n := Holding(cipher, secret, random);
    n.(c := n.c.(store := n.c.store.(peers := map[2 := public2])), tx := Ready,
       down := n.down + [PeerKey(2, public2)], taken := 3,
       up := [RoomKeyOffer(ById(1, 2, Seal(cipher, secret, public2, nonce, random))), OfferOf(n, 2)])
  }

  function Asked(cipher: Cipher, secret: seq<Byte>, random: seq<Byte>): Node {
    var n := Second(cipher, secret, random, None);
    n.(c := n.c.(offered := {1}))
  }

  lemma OvertakenReachable(cipher: Cipher, secret1: seq<Byte>, secret2: seq<Byte>, random: seq<Byte>, nonce: seq<Byte>)
    requires Lawful(cipher) && |secret1| == |secret2| == |random| == KEY_SIZE
    ensures Pair(cipher, Overtaken(cipher, secret1, random, cipher.publicOf(secret2), nonce), Asked(cipher, secret2, random))
  {
    hide Pair;
    InformedReachable(cipher, secret1, secret2, random);
    var public2 := cipher.publicOf(secret2);
    var n0, m3 := Holding(cipher, secret1, random), Asked(cipher, secret2, random);
    var n1 := n0.(down := n0.down + [PeerKey(2, public2)]);
    var n2 := n1.(c := n1.c.(store := n1.c.store.(peers := map[2 := public2])), rx := Offering(2, true), taken := 3);
    PairMoves(cipher, n1, m3, Takes(1), n2);
    PairMoves(cipher, n2, m3, Continues(1, []), n2.(rx := Sealing(2)));
    var sealed := Seal(cipher, secret1, public2, nonce, random);
    PairMoves(cipher, n2.(rx := Sealing(2)), m3, Continues(1, nonce), n2.(rx := PostingRoom(2, sealed)));
    var n3 := n2.(rx := Idle, up := [RoomKeyOffer(ById(1, 2, sealed))]);
    PairMoves(cipher, n2.(rx := PostingRoom(2, sealed)), m3, Continues(1, []), n3);
    PairMoves(cipher, n3, m3, Posts(1), Overtaken(cipher, secret1, random, public2, nonce));
  }

  /** Client 2's key is on its way to client 1, whose input thread still holds its own offer. */
  lemma InformedReachable(cipher: Cipher, secret1: seq<Byte>, secret2: seq<Byte>, random: seq<Byte>)
    requires Lawful(cipher) && |secret1| == |secret2| == |random| == KEY_SIZE
    ensures var n := Holding(cipher, secret1, random);
            Pair(cipher, n.(down := n.down + [PeerKey(2, cipher.publicOf(secret2))]), Asked(cipher, secret2, random))
  {
    hide Pair;
    HoldingReachable(cipher, secret1, secret2, random);
    var public2 := cipher.publicOf(secret2);
    var n0, m0 := Holding(cipher, secret1, random), Second(cipher, secret2, random, None);
    var m1 := m0.(c := m0.c.(offered := {1}), tx := Sending(1));
    PairMoves(cipher, n0, m0, OffersKey(2, 1), m1);
    var m2 := m1.(tx := Ready, up := [OfferOf(m1, 1)]);
    PairMoves(cipher, n0, m1, Posts(2), m2);
    assert m2.up[1..] == [] && Target(m2.up[0]) == 1;
    PairRelays(cipher, n0, m2, 2);
    assert m2.(up := m2.up[1..]) == Asked(cipher, secret2, random);
    assert RelayedAs(2, m2.up[0]) == PeerKey(2, public2);
  }

  /** Everything is quiet, the two know each other's key, and the second has no room key. */
  ghost predicate RoomKeyMissing(net: Net) {
    && Quiescent(net) && net.node.Keys == {1, 2}
    && 2 in net.node[1].c.store.peers && 1 in net.node[2].c.store.peers
    && net.node[1].c.store.room.Some? && net.node[2].c.store.room.None?
  }

  lemma MissingIn(cipher: Cipher, n: Node, m: Node) returns (net: Net)
    requires Pair(cipher, n, m) && AtRest(n) && AtRest(m) && 2 in n.c.store.peers && 1 in m.c.store.peers
    requires n.c.store.room.Some? && m.c.store.room.None?
    ensures Reachable(cipher, net) && RoomKeyMissing(net)
  {
    hide Reachable;
    var order :| Reachable(cipher, PairNet(n, m, order));
    net := PairNet(n, m, order);
  }

  /** The room key reaches client 2 before the key that opens it, is dropped, and is never sent again. */
  lemma OvertakingLosesTheRoomKey(cipher: Cipher, secret1: seq<Byte>, secret2: seq<Byte>, random: seq<Byte>, nonce: seq<Byte>)
    returns (net: Net)
    requires Lawful(cipher) && |secret1| == |secret2| == |random| == KEY_SIZE
    ensures Reachable(cipher, net) && RoomKeyMissing(net)
  {
    hide Reachable, Pair, RoomKeyMissing;
    LateReachable(cipher, secret1, secret2, random, nonce);
    var public1 := cipher.publicOf(secret1);
    var n2, m2 := Emptied(cipher, secret1, random, cipher.publicOf(secret2), nonce), Late(cipher, secret1, secret2, random, nonce);
    var m3 := m2.(taken := 2);
    PairMoves(cipher, n2, m2, Takes(2), m3);
    var m4 := m3.(c := m3.c.(store := m3.c.store.(peers := map[1 := public1])), rx := Offering(1, true), taken := 3);
    PairMoves(cipher, n2, m3, Takes(2), m4);
    PairMoves(cipher, n2, m4, Continues(2, []), m4.(rx := Sealing(1)));
    PairMoves(cipher, n2, m4.(rx := Sealing(1)), Continues(2, []), m4.(rx := Idle));
    net := MissingIn(cipher, n2, m4.(rx := Idle));
  }

  /** Client 1 when the server has handled both of its messages, and client 2 before it takes them. */
  function Emptied(cipher: Cipher, secret: seq<Byte>, random: seq<Byte>, public2: seq<Byte>, nonce: seq<Byte>): Node {
    Overtaken(cipher, secret, random, public2, nonce).(up := [])
  }

  function Late(cipher: Cipher, secret1: seq<Byte>, secret2: seq<Byte>, random: seq<Byte>, nonce: seq<Byte>): Node {
    var sealed := Seal(cipher, secret1, cipher.publicOf(secret2), nonce, random);
    Asked(cipher, secret2, random).(down := [AssignId(2, false), RoomKey(1, sealed), PeerKey(1, cipher.publicOf(secret1))])
  }

  lemma LateReachable(cipher: Cipher, secret1: seq<Byte>, secret2: seq<Byte>, random: seq<Byte>, nonce: seq<Byte>)
    requires Lawful(cipher) && |secret1| == |secret2| == |random| == KEY_SIZE
    ensures Pair(cipher, Emptied(cipher, secret1, random, cipher.publicOf(secret2), nonce),
                 Late(cipher, secret1, secret2, random, nonce))
  {
    hide Pair;
    OvertakenReachable(cipher, secret1, secret2, random, nonce);
    var public1, public2 := cipher.publicOf(secret1), cipher.publicOf(secret2);
    var sealed := Seal(cipher, secret1, public2, nonce, random);
    var n0, m0 := Overtaken(cipher, secret1, random, public2, nonce), Asked(cipher, secret2, random);
    assert Target(n0.up[0]) == 2 && Target(n0.up[1]) == 2;
    PairRelays(cipher, n0, m0, 1);
    var n1, m1 := n0.(up := n0.up[1..]), m0.(down := m0.down + [RoomKey(1, sealed)]);
    PairRelays(cipher, n1, m1, 1);
    assert n1.(up := n1.up[1..]) == Emptied(cipher, secret1, random, public2, nonce);
    assert m1.(down := m1.down + [PeerKey(1, public1)]) == Late(cipher, secret1, secret2, random, nonce);
  }

  // ----- two saved room keys -----

  /** Client x of the pair, and the pair with client x replaced. */
  function Of(n1: Node, n2: Node, x: nat): Node {
    if x == 1 then n1 else n2
  }

  ghost predicate PairWith(cipher: Cipher, n1: Node, n2: Node, x: nat, n': Node) {
    if x == 1 then Pair(cipher, n', n2) else Pair(cipher, n1, n')
  }

  /** Client n after it has handled the announcement of p: it has offered its key. */
  function Announcing(n: Node, p: nat): Node {
    n.(c := n.c.(offered := n.c.offered + {p}, view := Named(n.c.view, p, [])), taken := n.taken + 1, up := n.up + [OfferOf(n, p)])
  }

  lemma HandlesJoin(cipher: Cipher, n1: Node, n2: Node, x: nat, p: nat)
    requires Pair(cipher, n1, n2) && (x == 1 || x == 2)
    requires var n := Of(n1, n2, x);
             n.rx == Idle && 1 <= n.taken < |n.down| && n.down[n.taken] == UserJoined(p, []) && n.c.id == x && WantsOffer(n.c, p)
    ensures PairWith(cipher, n1, n2, x, Announcing(Of(n1, n2, x), p))
  {
    hide Pair;
    var n := Of(n1, n2, x);
    var n' := Took(cipher, n, UserJoined(p, []));
    PairMoves(cipher, n1, n2, Takes(x), n');
    var n'' := n'.(c := OfferMarked(n'.c, p), rx := Posting(p, false));
    var m1, m2 := if x == 1 then n' else n1, if x == 2 then n' else n2;
    PairMoves(cipher, m1, m2, Continues(x, []), n'');
    PairMoves(cipher, if x == 1 then n'' else n1, if x == 2 then n'' else n2, Continues(x, []), Announcing(n, p));
  }

  /** Client n after it has handled the key of p: it has offered its own unless it had, and sent its room key. */
  function Answering(cipher: Cipher, n: Node, p: nat, key: seq<Byte>, nonce: seq<Byte>): Node
    requires n.c.store.room.Some?
  {
    n.(c := n.c.(offered := n.c.offered + {p}, store := n.c.store.(peers := n.c.store.peers[p := key])), taken := n.taken + 1,
       up := n.up + (if p in n.c.offered then [] else [OfferOf(n, p)])
             + [RoomKeyOffer(ById(n.c.id, p, Seal(cipher, n.c.store.secret, key, nonce, n.c.store.room.value)))])
  }

  /** The client is about to take the key of p, and has a room key of its own. */
  predicate GetsKey(n: Node, p: nat, key: seq<Byte>) {
    && n.rx == Idle && 1 <= n.taken < |n.down| && n.down[n.taken] == PeerKey(p, key) && |key| == KEY_SIZE
    && p != 0 && p != n.c.id && |n.c.store.secret| == KEY_SIZE
    && n.c.store.room.Some? && |n.c.store.room.value| == KEY_SIZE
  }

  lemma HandlesKey(cipher: Cipher, n1: Node, n2: Node, x: nat, p: nat, key: seq<Byte>, nonce: seq<Byte>)
    requires Pair(cipher, n1, n2) && (x == 1 || x == 2) && GetsKey(Of(n1, n2, x), p, key)
    ensures PairWith(cipher, n1, n2, x, Answering(cipher, Of(n1, n2, x), p, key, nonce))
  {
    hide Pair;
    var n := Of(n1, n2, x);
    var c' := n.c.(store := n.c.store.(peers := n.c.store.peers[p := key]));
    var taken := n.(c := c', rx := Offering(p, true), taken := n.taken + 1);
    PairMoves(cipher, n1, n2, Takes(x), taken);
    var sealing := OfferedTo(cipher, if x == 1 then taken else n1, if x == 2 then taken else n2, x, p);
    SendsRoom(cipher, if x == 1 then sealing else n1, if x == 2 then sealing else n2, x, p, nonce);
  }

  lemma OfferedTo(cipher: Cipher, n1: Node, n2: Node, x: nat, p: nat) returns (n': Node)
    requires Pair(cipher, n1, n2) && (x == 1 || x == 2)
    requires var n := Of(n1, n2, x); n.rx == Offering(p, true) && p != 0 && p != n.c.id
    ensures PairWith(cipher, n1, n2, x, n')
    ensures var n := Of(n1, n2, x);
            n' == n.(rx := Sealing(p), c := n.c.(offered := n.c.offered + {p}), up := n.up + if p in n.c.offered then [] else [OfferOf(n, p)])
  {
    hide Pair;
    var n := Of(n1, n2, x);
    if p in n.c.offered {
      n' := n.(rx := Sealing(p));
      assert n.c.offered + {p} == n.c.offered && n.up + [] == n.up;
      PairMoves(cipher, n1, n2, Continues(x, []), n');
    } else {
      var marked := n.(c := OfferMarked(n.c, p), rx := Posting(p, true));
      PairMoves(cipher, n1, n2, Continues(x, []), marked);
      n' := marked.(rx := Sealing(p), up := n.up + [OfferOf(n, p)]);
      PairMoves(cipher, if x == 1 then marked else n1, if x == 2 then marked else n2, Continues(x, []), n');
    }
  }

  lemma SendsRoom(cipher: Cipher, n1: Node, n2: Node, x: nat, p: nat, nonce: seq<Byte>)
    requires Pair(cipher, n1, n2) && (x == 1 || x == 2)
    requires var n := Of(n1, n2, x); n.rx == Sealing(p) && RoomKeyFor(cipher, n.c, p, nonce).Some?
    ensures var n := Of(n1, n2, x);
            PairWith(cipher, n1, n2, x,
                     n.(rx := Idle, up := n.up + [RoomKeyOffer(ById(n.c.id, p, RoomKeyFor(cipher, n.c, p, nonce).value))]))
  {
    hide Pair, RoomKeyFor;
    var n := Of(n1, n2, x);
    var sealed := RoomKeyFor(cipher, n.c, p, nonce).value;
    var posting := n.(rx := PostingRoom(p, sealed));
    PairMoves(cipher, n1, n2, Continues(x, nonce), posting);
    PairMoves(cipher, if x == 1 then posting else n1, if x == 2 then posting else n2, Continues(x, nonce),
              n.(rx := Idle, up := n.up + [RoomKeyOffer(ById(n.c.id, p, sealed))]));
  }

  /** A room key from a client whose key is known replaces the one the client had. */
  lemma HandlesRoomKey(cipher: Cipher, n1: Node, n2: Node, x: nat, p: nat, secret: seq<Byte>, nonce: seq<Byte>, key: seq<Byte>)
    requires Pair(cipher, n1, n2) && (x == 1 || x == 2) && Lawful(cipher) && |secret| == |key| == KEY_SIZE
    requires var n := Of(n1, n2, x);
             && n.rx == Idle && 1 <= n.taken < |n.down| && |n.c.store.secret| == KEY_SIZE
             && n.down[n.taken] == RoomKey(p, Seal(cipher, secret, cipher.publicOf(n.c.store.secret), nonce, key))
             && p in n.c.store.peers && n.c.store.peers[p] == cipher.publicOf(secret)
    ensures var n := Of(n1, n2, x);
            PairWith(cipher, n1, n2, x, n.(c := n.c.(store := n.c.store.(room := Some(key))), taken := n.taken + 1))
  {
    hide Pair;
    var n := Of(n1, n2, x);
    OpensSealed(cipher, secret, n.c.store.secret, nonce, key);
    PairMoves(cipher, n1, n2, Takes(x), n.(c := n.c.(store := n.c.store.(room := Some(key))), taken := n.taken + 1));
  }

  /** Everything is quiet, the two know each other's key, and each has the room key the other came with. */
  ghost predicate Swapped(net: Net, key1: seq<Byte>, key2: seq<Byte>) {
    && Quiescent(net) && net.node.Keys == {1, 2}
    && net.node[1].saved == Some(key1) && net.node[2].saved == Some(key2)
    && 2 in net.node[1].c.store.peers && 1 in net.node[2].c.store.peers
    && net.node[1].c.store.room == Some(key2) && net.node[2].c.store.room == Some(key1)
  }

  lemma SwappedIn(cipher: Cipher, n: Node, m: Node, key1: seq<Byte>, key2: seq<Byte>) returns (net: Net)
    requires Pair(cipher, n, m) && AtRest(n) && AtRest(m) && 2 in n.c.store.peers && 1 in m.c.store.peers
    requires n.saved == Some(key1) && m.saved == Some(key2) && n.c.store.room == Some(key2) && m.c.store.room == Some(key1)
    ensures Reachable(cipher, net) && Swapped(net, key1, key2)
  {
    hide Reachable;
    var order :| Reachable(cipher, PairNet(n, m, order));
    net := PairNet(n, m, order);
  }

  /** Both have sent the other their public key and the room key they came with. */
  lemma BothSend(cipher: Cipher, secret1: seq<Byte>, secret2: seq<Byte>, random: seq<Byte>, key1: seq<Byte>, key2: seq<Byte>, nonce: seq<Byte>)
    returns (n: Node, m: Node)
    requires Lawful(cipher) && |secret1| == |secret2| == |random| == |key1| == |key2| == KEY_SIZE
    ensures Pair(cipher, n, m)
    ensures HoldsRoomOffer(cipher, n, secret1, key1, 2, secret2, nonce) && n.saved == Some(key1)
    ensures HoldsRoomOffer(cipher, m, secret2, key2, 1, secret1, nonce) && m.saved == Some(key2)
  {
    hide Pair;
    var public1, public2 := cipher.publicOf(secret1), cipher.publicOf(secret2);
    PairStarts(cipher, secret1, secret2, random, Some(key1), Some(key2));
    var creator, m0 := Creator(cipher, secret1, random, Some(key1)), Second(cipher, secret2, random, Some(key2));
    var n0 := creator.(down := creator.down + [UserJoined(2, [])]);
    HandlesJoin(cipher, n0, m0, 1, 2);
    var n1 := Announcing(n0, 2);
    TargetOfOffer(1, 2, public1);
    PairRelays(cipher, n1, m0, 1);
    var n2, m1 := n1.(up := []), m0.(down := m0.down + [PeerKey(1, public1)]);
    assert n1.up[1..] == [];
    HandlesKey(cipher, n2, m1, 2, 1, public1, nonce);
    var m2 := Answering(cipher, m1, 1, public1, nonce);
    TargetOfOffer(2, 1, public2);
    PairRelays(cipher, n2, m2, 2);
    var n3, m3 := n2.(down := n2.down + [PeerKey(2, public2)]), m2.(up := m2.up[1..]);
    HandlesKey(cipher, n3, m3, 1, 2, public2, nonce);
    n, m := Answering(cipher, n3, 2, public2, nonce), m3;
  }

  /** The client's only message under way is its room key for p, whose public key it has. */
  predicate HoldsRoomOffer(cipher: Cipher, n: Node, secret: seq<Byte>, key: seq<Byte>, p: nat, other: seq<Byte>, nonce: seq<Byte>) {
    && n.rx == Idle && n.tx == Ready && n.taken == |n.down| && n.taken >= 1 && n.c.id == 3 - p && n.c.store.secret == secret
    && p in n.c.store.peers && n.c.store.peers[p] == cipher.publicOf(other)
    && n.up == [RoomKeyOffer(ById(3 - p, p, Seal(cipher, secret, cipher.publicOf(other), nonce, key)))]
  }

  /**
   * Two clients come with different saved room keys. The first keeps its own although it is told to create
   * the room; both send theirs to the other, and both take what they are sent. In the end each has the
   * other's, and nothing more is under way.
   */
  lemma SavedRoomKeysAreSwapped(cipher: Cipher, secret1: seq<Byte>, secret2: seq<Byte>, random: seq<Byte>, key1: seq<Byte>, key2: seq<Byte>, nonce: seq<Byte>)
    returns (net: Net)
    requires Lawful(cipher) && |secret1| == |secret2| == |random| == |key1| == |key2| == KEY_SIZE
    ensures Reachable(cipher, net) && Swapped(net, key1, key2)
  {
    hide Reachable, Pair, Swapped;
    var n0, m0 := BothSend(cipher, secret1, secret2, random, key1, key2, nonce);
    var sealed1 := Seal(cipher, secret1, cipher.publicOf(secret2), nonce, key1);
    var sealed2 := Seal(cipher, secret2, cipher.publicOf(secret1), nonce, key2);
    TargetOfOffer(1, 2, sealed1);
    TargetOfOffer(2, 1, sealed2);
    PairRelays(cipher, n0, m0, 1);
    var n1, m1 := n0.(up := []), m0.(down := m0.down + [RoomKey(1, sealed1)]);
    assert n0.up[1..] == [];
    PairRelays(cipher, n1, m1, 2);
    var n2, m2 := n1.(down := n1.down + [RoomKey(2, sealed2)]), m1.(up := []);
    assert m1.up[1..] == [];
    HandlesRoomKey(cipher, n2, m2, 1, 2, secret2, nonce, key2);
    var n3 := n2.(c := n2.c.(store := n2.c.store.(room := Some(key2))), taken := n2.taken + 1);
    HandlesRoomKey(cipher, n3, m2, 2, 1, secret1, nonce, key1);
    net := SwappedIn(cipher, n3, m2.(c := m2.c.(store := m2.c.store.(room := Some(key1))), taken := m2.taken + 1), key1, key2);
  }
}
