/**
 * The key-exchange protocol, seen per client id: every client's two threads, the messages on their way
 * to the server, and the messages the server has addressed to each client (of which the client has
 * taken a beginning). Nobody disconnects and nobody is banned, which module Churn allows, but any send
 * may fail. The threads of a client interleave between critical sections and sends: key_offered_to_ is
 * marked under the mutex, the offer is sent after the mutex has been released, and the mark is taken
 * back if that send fails.
 */
module Gossip {
  import opened Bytes
  import opened Messages
  import opened Cipher
  import opened Client

  /** Where the receive thread is inside handle_incoming. */
  datatype Rx =
    | Idle
    | Offering(peer: nat, room: bool)  // about to enter send_key_offer
    | Posting(peer: nat, room: bool)   // peer is marked, the KeyOffer is not sent yet
    | Sealing(peer: nat)               // about to enter maybe_send_room_key
    | PostingRoom(peer: nat, sealed: seq<Byte>)

  /** Where the input thread is: between commands, or about to send the KeyOffer it has marked. */
  datatype Tx = Ready | Sending(peer: nat)

  /**
   * A client with its connection: random is what generate_room_key would return, saved the room key its
   * key store had when it connected, up holds what it has sent and the server has not handled, down
   * everything the server has addressed to it, of which it has taken the first `taken` messages.
   */
  datatype Node = Node(c: Client, rx: Rx, tx: Tx, random: seq<Byte>, saved: Option<seq<Byte>>,
                       up: seq<AppMessage>, down: seq<AppMessage>, taken: nat)

  /**
   * Clients are numbered from 1 in order of arrival. bounced and inOrder are history: the offers the
   * server answered with "Unknown recipient", and the pairs for which a RoomKeyOffer was sent while the
   * peer was marked and its KeyOffer not still in the input thread's hands.
   */
  datatype Net = Net(size: nat, node: map<nat, Node>, bounced: set<(nat, nat)>, inOrder: set<(nat, nat)>)

  datatype Action =
    | Joins(secret: seq<Byte>, random: seq<Byte>, saved: Option<seq<Byte>>)  // a new client connects and is accepted
    | Serves(x: nat)                                 // the server handles the next message of client x
    | Starts(x: nat, nickname: Option<seq<Byte>>)    // receive_assigned_id and register_nickname
    | Takes(x: nat)                                  // the receive thread takes the next message
    | Continues(x: nat, nonce: seq<Byte>)            // the receive thread goes on with its message
    | OffersKey(x: nat, peer: nat)                   // the input thread runs "/key peer" up to the mark
    | Posts(x: nat)                                  // the input thread sends the offer it has marked
    | PostFails(x: nat)                              // or fails to, and takes the mark back
    | ContinueFails(x: nat)                          // the receive thread fails to send its offer or room key
    | Says(x: nat, message: AppMessage)              // the input thread sends a chat or a list request

  // ----- one client -----

  function NewNode(cipher: Cipher, x: nat, secret: seq<Byte>, random: seq<Byte>, saved: Option<seq<Byte>>): Node {
    Node(Client(0, KeyStore(secret, cipher.publicOf(secret), saved, map[]), {}, EmptyView()), Idle, Ready, random, saved,
         [], [AssignId(x, x == 1)], 0)
  }

  function Started(n: Node, m: AppMessage, nickname: Option<seq<Byte>>): Node
    requires m.AssignId?
  {
    n.(c := Assigned(n.c, m, n.random), taken := 1,
       up := n.up + (if nickname.Some? then [Register(nickname.value)] else []))
  }

  function Took(cipher: Cipher, n: Node, m: AppMessage): Node {
    var rx := match m
      case PeerKey(fromId, text) => if |text| == KEY_SIZE then Offering(fromId, true) else Idle
      case UserJoined(id, _) => if id != n.c.id then Offering(id, false) else Idle
      case _ => Idle;
    n.(c := Absorbed(cipher, n.c, m), rx := rx, taken := n.taken + 1)
  }

  function AfterOffer(peer: nat, room: bool): Rx {
    if room then Sealing(peer) else Idle
  }

  function OfferOf(n: Node, peer: nat): AppMessage {
    KeyOffer(ById(n.c.id, peer, n.c.store.public))
  }

  function Continued(cipher: Cipher, n: Node, nonce: seq<Byte>): Node {
    match n.rx
    case Idle => n
    case Offering(peer, room) =>
      if WantsOffer(n.c, peer) then n.(c := OfferMarked(n.c, peer), rx := Posting(peer, room))
      else n.(rx := AfterOffer(peer, room))
    case Posting(peer, room) => n.(rx := AfterOffer(peer, room), up := n.up + [OfferOf(n, peer)])
    case Sealing(peer) =>
      (match RoomKeyFor(cipher, n.c, peer, nonce)
       case None => n.(rx := Idle)
       case Some(sealed) => n.(rx := PostingRoom(peer, sealed)))
    case PostingRoom(peer, sealed) => n.(rx := Idle, up := n.up + [RoomKeyOffer(ById(n.c.id, peer, sealed))])
  }

  /** The receive thread's send has failed: an offer loses its mark, a room key is not sent again. */
  function ContinueFailed(n: Node): Node {
    match n.rx
    case Posting(peer, room) => n.(c := OfferUnmarked(n.c, peer), rx := AfterOffer(peer, room))
    case PostingRoom(_, _) => n.(rx := Idle)
    case _ => n
  }

  /** The step of client n for an action of one of its own threads. */
  function Moved(cipher: Cipher, n: Node, a: Action): Node
    requires CanMove(n, a)
  {
    match a
    case Starts(_, nickname) => Started(n, n.down[0], nickname)
    case Takes(_) => Took(cipher, n, n.down[n.taken])
    case Continues(_, nonce) => Continued(cipher, n, nonce)
    case OffersKey(_, peer) =>
      if WantsOffer(n.c, peer) then n.(c := OfferMarked(n.c, peer), tx := Sending(peer)) else n
    case Posts(_) => n.(tx := Ready, up := n.up + [OfferOf(n, n.tx.peer)])
    case PostFails(_) => n.(c := OfferUnmarked(n.c, n.tx.peer), tx := Ready)
    case ContinueFails(_) => ContinueFailed(n)
    case Says(_, m) => n.(up := n.up + [m])
  }

  ghost predicate CanMove(n: Node, a: Action) {
    match a
    case Joins(_, _, _) => false
    case Serves(_) => false
    case Starts(_, nickname) =>
      && n.taken == 0 < |n.down| && n.down[0].AssignId?
      && (nickname.Some? ==> 0 < |nickname.value| <= MAX_U16_COUNT)
    case Takes(_) => 1 <= n.taken < |n.down| && n.rx == Idle
    case Continues(_, _) => n.rx != Idle
    case OffersKey(_, peer) => n.taken >= 1 && n.tx == Ready && peer < U32_LIMIT
    case Posts(_) => n.tx.Sending?
    case PostFails(_) => n.tx.Sending?
    case ContinueFails(_) => n.rx.Posting? || n.rx.PostingRoom?
    case Says(_, m) => n.taken >= 1 && n.tx == Ready && (m.Chat? || m.ListUsers?) && WellFormed(m)
  }

  /** A step in which a send fails. */
  predicate SendFails(a: Action) {
    a.PostFails? || a.ContinueFails?
  }

  /** The receive thread sends a room key to a marked peer for which the input thread has no unsent offer. */
  predicate SendsRoomInOrder(n: Node, a: Action) {
    a.Continues? && n.rx.PostingRoom? && n.rx.peer in n.c.offered && n.tx != Sending(n.rx.peer)
  }

  // ----- the server, as the clients see it -----

  /** The client a KeyOffer or RoomKeyOffer names. */
  function Target(m: AppMessage): nat {
    if (m.KeyOffer? || m.RoomKeyOffer?) && |m.chat.recipientData| >= 4 then ReadU32(m.chat.recipientData) else 0
  }

  predicate Harmless(m: AppMessage) {
    m.Deliver? || m.Error? || m.UsersList?
  }

  /** A message for some other client whose id the registry holds. */
  predicate Relayable(net: Net, m: AppMessage) {
    (m.KeyOffer? || m.RoomKeyOffer?) && Target(m) in net.node
  }

  function RelayedAs(x: nat, m: AppMessage): AppMessage
    requires m.KeyOffer? || m.RoomKeyOffer?
  {
    if m.KeyOffer? then PeerKey(x, m.chat.text) else RoomKey(x, m.chat.text)
  }

  /** ms is what message m of client x makes the server address to client i. */
  ghost predicate Answers(net: Net, x: nat, m: AppMessage, i: nat, ms: seq<AppMessage>) {
    if Relayable(net, m) then ms == if i == Target(m) then [RelayedAs(x, m)] else []
    else
      || ms == []
      || (|ms| == 1 && Harmless(ms[0]))
      || (m.Register? && i != x && ms == [UserJoined(x, m.nickname)])
  }

  /** Client i after the server has handled the first message of client x. */
  ghost predicate Answered(net: Net, x: nat, i: nat, n': Node)
    requires x in net.node && i in net.node && net.node[x].up != []
  {
    var n := net.node[i];
    && n.down <= n'.down && Answers(net, x, net.node[x].up[0], i, n'.down[|n.down|..])
    && n' == n.(down := n'.down, up := if i == x then n.up[1..] else n.up)
  }

  /** The server found no client to relay the offer m of x to. */
  function BouncedBy(net: Net, x: nat, m: AppMessage): set<(nat, nat)> {
    if m.KeyOffer? && Target(m) !in net.node then net.bounced + {(x, Target(m))} else net.bounced
  }

  // ----- steps -----

  ghost predicate Next(cipher: Cipher, net: Net, a: Action, net': Net) {
    match a
    case Joins(secret, random, saved) => JoinsTo(cipher, net, secret, random, saved, net')
    case Serves(x) => ServesTo(net, x, net')
    case _ => MovesTo(cipher, net, a, net')
  }

  ghost predicate JoinsTo(cipher: Cipher, net: Net, secret: seq<Byte>, random: seq<Byte>, saved: Option<seq<Byte>>, net': Net) {
    var x := net.size + 1;
    && |secret| == KEY_SIZE && |random| == KEY_SIZE && (saved.Some? ==> |saved.value| == KEY_SIZE) && x < U32_LIMIT
    && net' == net.(size := x, node := net'.node)
    && net'.node.Keys == net.node.Keys + {x}
    && net'.node[x] == NewNode(cipher, x, secret, random, saved)
    && (forall i :: i in net.node && i != x ==> net'.node[i] == net.node[i].(down := net.node[i].down + [UserJoined(x, [])]))
  }

  ghost predicate ServesTo(net: Net, x: nat, net': Net) {
    && x in net.node && net.node[x].up != []
    && net' == net.(node := net'.node, bounced := BouncedBy(net, x, net.node[x].up[0]))
    && net'.node.Keys == net.node.Keys
    && (forall i :: i in net.node ==> Answered(net, x, i, net'.node[i]))
  }

  ghost predicate MovesTo(cipher: Cipher, net: Net, a: Action, net': Net)
    requires !a.Joins? && !a.Serves?
  {
    && a.x in net.node && CanMove(net.node[a.x], a)
    && var n := net.node[a.x];
       net' == net.(node := net.node[a.x := Moved(cipher, n, a)],
                    inOrder := if SendsRoomInOrder(n, a) then net.inOrder + {(a.x, n.rx.peer)} else net.inOrder)
  }

  function EmptyNet(): Net {
    Net(0, map[], {}, {})
  }

  datatype Run = Run(nets: seq<Net>, actions: seq<Action>)

  ghost predicate IsRun(cipher: Cipher, r: Run) {
    && |r.nets| == |r.actions| + 1
    && r.nets[0] == EmptyNet()
    && forall j :: 0 <= j < |r.actions| ==> Next(cipher, r.nets[j], r.actions[j], r.nets[j + 1])
  }

  /** No send fails before state j of the run. */
  predicate Faultless(r: Run, j: nat) {
    j <= |r.actions| && forall i :: 0 <= i < j ==> !SendFails(r.actions[i])
  }

  /** Nothing is under way at the client: all messages served and taken, both threads between messages. */
  predicate AtRest(n: Node) {
    n.up == [] && n.taken == |n.down| && n.rx == Idle && n.tx == Ready
  }

  predicate Quiescent(net: Net) {
    forall x :: x in net.node ==> AtRest(net.node[x])
  }
}
