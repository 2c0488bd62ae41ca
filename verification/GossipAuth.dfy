/** Every key and sealed room key in the network is what it claims to be. */
module GossipAuth {
  import opened Bytes
  import opened Messages
  import opened Cipher
  import opened Client
  import opened Gossip
  import opened GossipTokens
  import opened GossipPairs

  type Secrets = map<nat, seq<Byte>>

  /** The secret identity keys; nobody ever changes one. */
  function SecretsOf(net: Net): Secrets {
    map x | x in net.node :: net.node[x].c.store.secret
  }

  /** The room key client x brings along: the one it had saved, or for the first client else the one it generates. */
  function Brings(x: nat, n: Node): Option<seq<Byte>> {
    if n.saved.Some? then n.saved else if x == 1 then Some(n.random) else None
  }

  /** The room key of the creator of the room. */
  function TheRoomKey(net: Net): seq<Byte> {
    if 1 in net.node then Brings(1, net.node[1]).value else []
  }

  /** All room keys anyone has brought along. */
  function RoomKeys(net: Net): set<seq<Byte>> {
    set x | x in net.node && Brings(x, net.node[x]).Some? :: Brings(x, net.node[x]).value
  }

  predicate AllSized(keys: set<seq<Byte>>) {
    forall key :: key in keys ==> |key| == KEY_SIZE
  }

  ghost predicate SealedFor(cipher: Cipher, from: seq<Byte>, to: seq<Byte>, keys: set<seq<Byte>>, text: seq<Byte>) {
    exists nonce, key :: key in keys && text == Seal(cipher, from, cipher.publicOf(to), nonce, key)
  }

  /** A message client x may have sent. */
  ghost predicate UpOk(cipher: Cipher, secrets: Secrets, keys: set<seq<Byte>>, x: nat, m: AppMessage) {
    match m
    case KeyOffer(chat) =>
      var p := Target(m);
      x in secrets && p != 0 && p != x && p < U32_LIMIT && chat == ById(x, p, cipher.publicOf(secrets[x]))
    case RoomKeyOffer(chat) =>
      var p := Target(m);
      && x in secrets && p in secrets && p != x && p < U32_LIMIT && chat == ById(x, p, chat.text)
      && SealedFor(cipher, secrets[x], secrets[p], keys, chat.text)
    case Register(_) => WellFormed(m)
    case Chat(_) => WellFormed(m)
    case ListUsers => true
    case _ => false
  }

  /** A message the server may have addressed to client y. */
  ghost predicate DownOk(cipher: Cipher, secrets: Secrets, keys: set<seq<Byte>>, y: nat, m: AppMessage) {
    match m
    case PeerKey(fromId, text) => fromId in secrets && fromId != y && text == cipher.publicOf(secrets[fromId])
    case RoomKey(fromId, text) =>
      y in secrets && fromId in secrets && fromId != y && SealedFor(cipher, secrets[fromId], secrets[y], keys, text)
    case UserJoined(id, _) => id in secrets && id != y
    case AssignId(_, _) => true
    case _ => Harmless(m)
  }

  /** The receive thread is handling a PeerKey and has not dealt with the room key yet. */
  predicate RoomPhase(rx: Rx) {
    (rx.Offering? && rx.room) || (rx.Posting? && rx.room) || rx.Sealing? || rx.PostingRoom?
  }

  ghost predicate ThreadsOk(cipher: Cipher, secrets: Secrets, keys: set<seq<Byte>>, x: nat, n: Node) {
    && SanePeers(n, x)
    && (n.rx != Idle ==> n.rx.peer in secrets)
    && (RoomPhase(n.rx) ==> n.rx.peer in n.c.store.peers)
    && (n.rx.PostingRoom? && n.rx.peer in secrets ==>
          SealedFor(cipher, n.c.store.secret, secrets[n.rx.peer], keys, n.rx.sealed))
  }

  ghost predicate StoreOk(cipher: Cipher, secrets: Secrets, keys: set<seq<Byte>>, n: Node) {
    var store := n.c.store;
    && store.public == cipher.publicOf(store.secret) && |store.secret| == KEY_SIZE && |n.random| == KEY_SIZE
    && (forall p :: p in store.peers ==> p in secrets && store.peers[p] == cipher.publicOf(secrets[p]))
    && (n.saved.Some? ==> |n.saved.value| == KEY_SIZE)
    && (store.room.Some? ==> store.room.value in keys)
  }

  ghost predicate NodeOk(cipher: Cipher, secrets: Secrets, keys: set<seq<Byte>>, x: nat, n: Node) {
    && StoreOk(cipher, secrets, keys, n)
    && ThreadsOk(cipher, secrets, keys, x, n)
    && (n.taken >= 1 ==> n.c.id == x)
    && (n.taken == 0 ==> n.rx == Idle && n.tx == Ready && n.c.offered == {} && n.c.store.peers == map[]
                         && n.c.store.room == n.saved && n.up == [])
    && (forall i :: 0 <= i < |n.up| ==> UpOk(cipher, secrets, keys, x, n.up[i]))
    && (forall i :: 0 <= i < |n.down| ==> DownOk(cipher, secrets, keys, x, n.down[i]))
  }

  ghost predicate AuthInv(cipher: Cipher, net: Net) {
    && Shape(net)
    && forall x :: x in net.node ==> NodeOk(cipher, SecretsOf(net), RoomKeys(net), x, net.node[x])
  }

  // ----- one client's step keeps its node honest -----

  lemma StartKeepsNode(cipher: Cipher, secrets: Secrets, keys: set<seq<Byte>>, x: nat, n: Node, createRoom: bool, nickname: Option<seq<Byte>>)
    requires NodeOk(cipher, secrets, keys, x, n) && n.taken == 0 && (createRoom && n.saved.None? ==> n.random in keys)
    requires nickname.Some? ==> |nickname.value| <= MAX_U16_COUNT
    ensures NodeOk(cipher, secrets, keys, x, Started(n, AssignId(x, createRoom), nickname))
  {
  }

  lemma TakenRoomKey(cipher: Cipher, secrets: Secrets, keys: set<seq<Byte>>, x: nat, n: Node, m: AppMessage)
    requires Lawful(cipher) && AllSized(keys) && x in secrets && secrets[x] == n.c.store.secret
    requires StoreOk(cipher, secrets, keys, n) && DownOk(cipher, secrets, keys, x, m) && m.RoomKey?
    ensures var c' := Absorbed(cipher, n.c, m);
            if m.fromId in n.c.store.peers then
              c'.store.room.Some? && c'.store.room.value in keys && c' == n.c.(store := n.c.store.(room := c'.store.room))
            else c' == n.c
  {
    if m.fromId in n.c.store.peers {
      var nonce, key :| key in keys && m.text == Seal(cipher, secrets[m.fromId], cipher.publicOf(secrets[x]), nonce, key);
      OpensSealed(cipher, secrets[m.fromId], secrets[x], nonce, key);
    }
  }

  lemma TakeKeepsNode(cipher: Cipher, secrets: Secrets, keys: set<seq<Byte>>, x: nat, n: Node, m: AppMessage)
    requires Lawful(cipher) && AllSized(keys) && x in secrets && secrets[x] == n.c.store.secret
    requires forall p :: p in secrets ==> 1 <= p < U32_LIMIT
    requires NodeOk(cipher, secrets, keys, x, n) && n.taken >= 1 && n.rx == Idle && DownOk(cipher, secrets, keys, x, m)
    ensures NodeOk(cipher, secrets, keys, x, Took(cipher, n, m))
    ensures Took(cipher, n, m).c.store.secret == n.c.store.secret
  {
    if m.RoomKey? {
      TakenRoomKey(cipher, secrets, keys, x, n, m);
    }
  }

  lemma AppendUpOk(cipher: Cipher, secrets: Secrets, keys: set<seq<Byte>>, x: nat, n: Node, n': Node, m: AppMessage)
    requires NodeOk(cipher, secrets, keys, x, n) && UpOk(cipher, secrets, keys, x, m) && n.taken >= 1
    requires n' == n.(up := n.up + [m], rx := n'.rx, tx := n'.tx)
    requires ThreadsOk(cipher, secrets, keys, x, n')
    ensures NodeOk(cipher, secrets, keys, x, n')
  {
  }

  lemma ContinueKeepsNode(cipher: Cipher, secrets: Secrets, keys: set<seq<Byte>>, x: nat, n: Node, nonce: seq<Byte>)
    requires Lawful(cipher) && x in secrets && secrets[x] == n.c.store.secret
    requires NodeOk(cipher, secrets, keys, x, n) && n.rx != Idle
    ensures NodeOk(cipher, secrets, keys, x, Continued(cipher, n, nonce))
  {
    match n.rx {
      case Posting(_, _) => PostingKeepsNode(cipher, secrets, keys, x, n, nonce);
      case PostingRoom(_, _) => PostingRoomKeepsNode(cipher, secrets, keys, x, n, nonce);
      case Sealing(_) => SealingKeepsNode(cipher, secrets, keys, x, n, nonce);
      case Offering(_, _) => OfferingKeepsNode(cipher, secrets, keys, x, n, nonce);
    }
  }

  lemma PostingKeepsNode(cipher: Cipher, secrets: Secrets, keys: set<seq<Byte>>, x: nat, n: Node, nonce: seq<Byte>)
    requires Lawful(cipher) && x in secrets && secrets[x] == n.c.store.secret
    requires NodeOk(cipher, secrets, keys, x, n) && n.rx.Posting?
    ensures NodeOk(cipher, secrets, keys, x, Continued(cipher, n, nonce))
  {
    TargetOfOffer(x, n.rx.peer, n.c.store.public);
    AppendUpOk(cipher, secrets, keys, x, n, Continued(cipher, n, nonce), OfferOf(n, n.rx.peer));
  }

  lemma PostingRoomKeepsNode(cipher: Cipher, secrets: Secrets, keys: set<seq<Byte>>, x: nat, n: Node, nonce: seq<Byte>)
    requires Lawful(cipher) && x in secrets && secrets[x] == n.c.store.secret
    requires NodeOk(cipher, secrets, keys, x, n) && n.rx.PostingRoom?
    ensures NodeOk(cipher, secrets, keys, x, Continued(cipher, n, nonce))
  {
    TargetOfOffer(x, n.rx.peer, n.rx.sealed);
    AppendUpOk(cipher, secrets, keys, x, n, Continued(cipher, n, nonce), RoomKeyOffer(ById(x, n.rx.peer, n.rx.sealed)));
  }

  lemma SealingKeepsNode(cipher: Cipher, secrets: Secrets, keys: set<seq<Byte>>, x: nat, n: Node, nonce: seq<Byte>)
    requires NodeOk(cipher, secrets, keys, x, n) && n.rx.Sealing?
    ensures NodeOk(cipher, secrets, keys, x, Continued(cipher, n, nonce))
  {
    SealKeepsThreads(cipher, secrets, keys, x, n, nonce);
    hide ThreadsOk, UpOk, DownOk, RoomKeyFor;
  }

  lemma OfferingKeepsNode(cipher: Cipher, secrets: Secrets, keys: set<seq<Byte>>, x: nat, n: Node, nonce: seq<Byte>)
    requires NodeOk(cipher, secrets, keys, x, n) && n.rx.Offering?
    ensures NodeOk(cipher, secrets, keys, x, Continued(cipher, n, nonce))
  {
    hide UpOk, DownOk;
  }

  lemma SealKeepsThreads(cipher: Cipher, secrets: Secrets, keys: set<seq<Byte>>, x: nat, n: Node, nonce: seq<Byte>)
    requires StoreOk(cipher, secrets, keys, n) && ThreadsOk(cipher, secrets, keys, x, n) && n.rx.Sealing?
    ensures ThreadsOk(cipher, secrets, keys, x, Continued(cipher, n, nonce))
  {
    var peer := n.rx.peer;
    if RoomKeyFor(cipher, n.c, peer, nonce).Some? {
      var sealed := RoomKeyFor(cipher, n.c, peer, nonce).value;
      assert sealed == Seal(cipher, n.c.store.secret, cipher.publicOf(secrets[peer]), nonce, n.c.store.room.value);
      assert SealedFor(cipher, n.c.store.secret, secrets[peer], keys, sealed);
    }
  }

  lemma MoveKeepsNode(cipher: Cipher, secrets: Secrets, keys: set<seq<Byte>>, x: nat, n: Node, a: Action)
    requires Lawful(cipher) && AllSized(keys) && x in secrets && secrets[x] == n.c.store.secret
    requires forall p :: p in secrets ==> 1 <= p < U32_LIMIT
    requires NodeOk(cipher, secrets, keys, x, n) && IsLocal(a) && CanMove(n, a)
    requires n.down != [] && n.down[0] == AssignId(x, x == 1) && (x == 1 && n.saved.None? ==> n.random in keys)
    ensures NodeOk(cipher, secrets, keys, x, Moved(cipher, n, a))
  {
    hide Continued, Started, Took, UpOk, DownOk, SealedFor;
    match a {
      case Starts(_, nickname) => StartKeepsNode(cipher, secrets, keys, x, n, x == 1, nickname);
      case Takes(_) => TakeKeepsNode(cipher, secrets, keys, x, n, n.down[n.taken]);
      case Continues(_, nonce) => ContinueKeepsNode(cipher, secrets, keys, x, n, nonce);
      case OffersKey(_, _) =>
      case Posts(_) => PostKeepsNode(cipher, secrets, keys, x, n, a);
      case PostFails(_) =>
      case ContinueFails(_) =>
      case Says(_, m) => SayKeepsNode(cipher, secrets, keys, x, n, a);
    }
  }

  lemma PostKeepsNode(cipher: Cipher, secrets: Secrets, keys: set<seq<Byte>>, x: nat, n: Node, a: Action)
    requires Lawful(cipher) && x in secrets && secrets[x] == n.c.store.secret
    requires NodeOk(cipher, secrets, keys, x, n) && a.Posts? && CanMove(n, a)
    ensures NodeOk(cipher, secrets, keys, x, Moved(cipher, n, a))
  {
    TargetOfOffer(x, n.tx.peer, n.c.store.public);
    AppendUpOk(cipher, secrets, keys, x, n, Moved(cipher, n, a), OfferOf(n, n.tx.peer));
  }

  lemma SayKeepsNode(cipher: Cipher, secrets: Secrets, keys: set<seq<Byte>>, x: nat, n: Node, a: Action)
    requires NodeOk(cipher, secrets, keys, x, n) && a.Says? && CanMove(n, a)
    ensures NodeOk(cipher, secrets, keys, x, Moved(cipher, n, a))
  {
    AppendUpOk(cipher, secrets, keys, x, n, Moved(cipher, n, a), a.message);
  }

  lemma MoveKeepsIdentity(cipher: Cipher, n: Node, a: Action)
    requires IsLocal(a) && CanMove(n, a)
    ensures var n' := Moved(cipher, n, a);
            n'.c.store.secret == n.c.store.secret && n'.random == n.random && n'.saved == n.saved && n'.down == n.down
            && n.taken <= n'.taken && (n'.taken <= |n.down| || n.taken > |n.down|)
  {
  }

  /** What a client's own step leaves as it is at every client. */
  ghost predicate SameIdentities(net: Net, net': Net) {
    && net'.size == net.size && net'.node.Keys == net.node.Keys
    && forall x :: x in net.node ==>
         && net'.node[x].c.store.secret == net.node[x].c.store.secret && net'.node[x].random == net.node[x].random
         && net'.node[x].saved == net.node[x].saved
         && net'.node[x].down == net.node[x].down
         && (net.node[x].taken <= |net.node[x].down| ==> net'.node[x].taken <= |net.node[x].down|)
  }

  lemma MoveKeepsIdentities(cipher: Cipher, net: Net, a: Action, net': Net)
    requires IsLocal(a) && MovesTo(cipher, net, a, net')
    ensures SameIdentities(net, net')
  {
    hide Moved, CanMove;
    MoveKeepsIdentity(cipher, net.node[a.x], a);
  }

  lemma MovedShape(cipher: Cipher, net: Net, a: Action, net': Net)
    requires Shape(net) && IsLocal(a) && MovesTo(cipher, net, a, net')
    ensures Shape(net') && SecretsOf(net') == SecretsOf(net) && RoomKeys(net') == RoomKeys(net)
  {
    hide MovesTo;
    MoveKeepsIdentities(cipher, net, a, net');
    SameKeysBrought(net, net');
  }

  lemma RoomKeysHaveSize(cipher: Cipher, net: Net)
    requires AuthInv(cipher, net)
    ensures AllSized(RoomKeys(net)) && (net.size >= 1 ==> 1 in net.node && TheRoomKey(net) in RoomKeys(net))
  {
    hide UpOk, DownOk, ThreadsOk;
    forall x | x in net.node && Brings(x, net.node[x]).Some?
      ensures |Brings(x, net.node[x]).value| == KEY_SIZE
    {
      assert NodeOk(cipher, SecretsOf(net), RoomKeys(net), x, net.node[x]);
    }
  }

  lemma MoveKeepsAuth(cipher: Cipher, net: Net, a: Action, net': Net)
    requires Lawful(cipher) && AuthInv(cipher, net) && IsLocal(a) && MovesTo(cipher, net, a, net')
    ensures AuthInv(cipher, net')
    ensures SecretsOf(net') == SecretsOf(net) && RoomKeys(net') == RoomKeys(net)
  {
    hide Moved, CanMove, NodeOk;
    var secrets, keys := SecretsOf(net), RoomKeys(net);
    MovedShape(cipher, net, a, net');
    RoomKeysHaveSize(cipher, net);
    MoveKeepsNode(cipher, secrets, keys, a.x, net.node[a.x], a);
    forall x | x in net'.node
      ensures NodeOk(cipher, secrets, keys, x, net'.node[x])
    {
      if x != a.x {
        assert net'.node[x] == net.node[x];
      }
    }
  }

  // ----- joining and serving -----

  ghost predicate Extends(secrets: Secrets, secrets': Secrets) {
    forall i :: i in secrets ==> i in secrets' && secrets'[i] == secrets[i]
  }

  lemma SealedForGrows(cipher: Cipher, from: seq<Byte>, to: seq<Byte>, keys: set<seq<Byte>>, text: seq<Byte>, keys': set<seq<Byte>>)
    requires SealedFor(cipher, from, to, keys, text) && keys <= keys'
    ensures SealedFor(cipher, from, to, keys', text)
  {
    var nonce, key :| key in keys && text == Seal(cipher, from, cipher.publicOf(to), nonce, key);
    assert key in keys';
  }

  lemma UpOkGrows(cipher: Cipher, secrets: Secrets, keys: set<seq<Byte>>, x: nat, m: AppMessage, secrets': Secrets, keys': set<seq<Byte>>)
    requires UpOk(cipher, secrets, keys, x, m) && Extends(secrets, secrets') && keys <= keys'
    ensures UpOk(cipher, secrets', keys', x, m)
  {
    hide SealedFor;
    if m.RoomKeyOffer? {
      SealedForGrows(cipher, secrets[x], secrets[Target(m)], keys, m.chat.text, keys');
    }
  }

  lemma DownOkGrows(cipher: Cipher, secrets: Secrets, keys: set<seq<Byte>>, y: nat, m: AppMessage, secrets': Secrets, keys': set<seq<Byte>>)
    requires DownOk(cipher, secrets, keys, y, m) && Extends(secrets, secrets') && keys <= keys'
    ensures DownOk(cipher, secrets', keys', y, m)
  {
    hide SealedFor;
    if m.RoomKey? {
      SealedForGrows(cipher, secrets[m.fromId], secrets[y], keys, m.text, keys');
    }
  }

  lemma NodeOkGrows(cipher: Cipher, secrets: Secrets, keys: set<seq<Byte>>, x: nat, n: Node, secrets': Secrets, keys': set<seq<Byte>>)
    requires NodeOk(cipher, secrets, keys, x, n) && Extends(secrets, secrets') && keys <= keys'
    ensures NodeOk(cipher, secrets', keys', x, n)
  {
    hide UpOk, DownOk, SealedFor, SanePeers;
    forall i | 0 <= i < |n.up|
      ensures UpOk(cipher, secrets', keys', x, n.up[i])
    {
      UpOkGrows(cipher, secrets, keys, x, n.up[i], secrets', keys');
    }
    forall i | 0 <= i < |n.down|
      ensures DownOk(cipher, secrets', keys', x, n.down[i])
    {
      DownOkGrows(cipher, secrets, keys, x, n.down[i], secrets', keys');
    }
    if n.rx.PostingRoom? {
      SealedForGrows(cipher, n.c.store.secret, secrets[n.rx.peer], keys, n.rx.sealed, keys');
    }
  }

  lemma AppendDownOk(cipher: Cipher, secrets: Secrets, keys: set<seq<Byte>>, x: nat, n: Node, n': Node, ms: seq<AppMessage>)
    requires NodeOk(cipher, secrets, keys, x, n)
    requires forall i :: 0 <= i < |ms| ==> DownOk(cipher, secrets, keys, x, ms[i])
    requires n' == n.(down := n.down + ms, up := n'.up) && (n'.up == n.up || (n.up != [] && n'.up == n.up[1..]))
    ensures NodeOk(cipher, secrets, keys, x, n')
  {
  }

  lemma JoinKeepsShape(cipher: Cipher, net: Net, secret: seq<Byte>, random: seq<Byte>, saved: Option<seq<Byte>>, net': Net)
    requires Shape(net) && JoinsTo(cipher, net, secret, random, saved, net')
    ensures Shape(net') && net.size + 1 !in net.node
  {
  }

  lemma JoinKeepsAuthOne(cipher: Cipher, secrets: Secrets, keys: set<seq<Byte>>, x: nat, i: nat, n: Node, n': Node,
                         secrets': Secrets, keys': set<seq<Byte>>)
    requires NodeOk(cipher, secrets, keys, i, n) && Extends(secrets, secrets') && keys <= keys' && x in secrets' && x != i
    requires n' == n.(down := n.down + [UserJoined(x, [])])
    ensures NodeOk(cipher, secrets', keys', i, n')
  {
    NodeOkGrows(cipher, secrets, keys, i, n, secrets', keys');
    AppendDownOk(cipher, secrets', keys', i, n, n', [UserJoined(x, [])]);
  }

  lemma NewNodeOk(cipher: Cipher, secrets: Secrets, keys: set<seq<Byte>>, x: nat, secret: seq<Byte>, random: seq<Byte>, saved: Option<seq<Byte>>)
    requires |secret| == KEY_SIZE && |random| == KEY_SIZE && (saved.Some? ==> |saved.value| == KEY_SIZE && saved.value in keys)
    ensures NodeOk(cipher, secrets, keys, x, NewNode(cipher, x, secret, random, saved))
  {
  }

  lemma SecretsExtend(cipher: Cipher, net: Net, secret: seq<Byte>, random: seq<Byte>, saved: Option<seq<Byte>>, net': Net)
    requires Shape(net) && JoinsTo(cipher, net, secret, random, saved, net')
    ensures Extends(SecretsOf(net), SecretsOf(net')) && net.size + 1 in SecretsOf(net')
    ensures RoomKeys(net) <= RoomKeys(net') && (saved.Some? ==> saved.value in RoomKeys(net'))
    ensures 1 in net.node ==> TheRoomKey(net') == TheRoomKey(net)
  {
    assert net'.node[net.size + 1].saved == saved;
    hide NewNode;
    SameKeysBrought(net, net');
  }

  /** Whoever stays has brought what it had brought. */
  lemma SameKeysBrought(net: Net, net': Net)
    requires forall x :: x in net.node ==> x in net'.node && net'.node[x].saved == net.node[x].saved && net'.node[x].random == net.node[x].random
    ensures RoomKeys(net) <= RoomKeys(net') && (net'.node.Keys == net.node.Keys ==> RoomKeys(net') == RoomKeys(net))
    ensures 1 in net.node ==> TheRoomKey(net') == TheRoomKey(net)
  {
    forall x | x in net.node && Brings(x, net.node[x]).Some?
      ensures Brings(x, net.node[x]).value in RoomKeys(net')
    {
      assert Brings(x, net'.node[x]) == Brings(x, net.node[x]);
    }
    if net'.node.Keys == net.node.Keys {
      forall x | x in net'.node && Brings(x, net'.node[x]).Some?
        ensures Brings(x, net'.node[x]).value in RoomKeys(net)
      {
        assert Brings(x, net'.node[x]) == Brings(x, net.node[x]);
      }
    }
  }

  lemma JoinKeepsAuth(cipher: Cipher, net: Net, secret: seq<Byte>, random: seq<Byte>, saved: Option<seq<Byte>>, net': Net)
    requires AuthInv(cipher, net) && JoinsTo(cipher, net, secret, random, saved, net')
    ensures AuthInv(cipher, net')
    ensures 1 in net.node ==> TheRoomKey(net') == TheRoomKey(net)
  {
    hide NodeOk, NewNode;
    JoinKeepsShape(cipher, net, secret, random, saved, net');
    SecretsExtend(cipher, net, secret, random, saved, net');
    var x, secrets, secrets', keys, keys' := net.size + 1, SecretsOf(net), SecretsOf(net'), RoomKeys(net), RoomKeys(net');
    forall i | i in net'.node
      ensures NodeOk(cipher, secrets', keys', i, net'.node[i])
    {
      if i == x {
        NewNodeOk(cipher, secrets', keys', x, secret, random, saved);
      } else {
        JoinKeepsAuthOne(cipher, secrets, keys, x, i, net.node[i], net'.node[i], secrets', keys');
      }
    }
  }

  lemma ServeKeepsShape(net: Net, z: nat, net': Net)
    requires Shape(net) && ServesTo(net, z, net')
    ensures Shape(net')
  {
    forall x | x in net'.node
      ensures |net'.node[x].down| >= 1 && net'.node[x].taken <= |net'.node[x].down| && net'.node[x].down[0] == AssignId(x, x == 1)
    {
      assert Answered(net, z, x, net'.node[x]);
    }
  }

  lemma AnswerIsAuthentic(cipher: Cipher, secrets: Secrets, keys: set<seq<Byte>>, net: Net, z: nat, m: AppMessage, y: nat, ms: seq<AppMessage>)
    requires UpOk(cipher, secrets, keys, z, m) && z in secrets && y in secrets && (forall i :: i in secrets <==> i in net.node)
    requires Answers(net, z, m, y, ms)
    ensures forall i :: 0 <= i < |ms| ==> DownOk(cipher, secrets, keys, y, ms[i])
  {
  }

  lemma ServeKeepsAuthOne(cipher: Cipher, secrets: Secrets, keys: set<seq<Byte>>, net: Net, z: nat, y: nat, n': Node)
    requires z in net.node && y in net.node && net.node[z].up != [] && Answered(net, z, y, n')
    requires UpOk(cipher, secrets, keys, z, net.node[z].up[0]) && (forall i :: i in secrets <==> i in net.node)
    requires NodeOk(cipher, secrets, keys, y, net.node[y])
    ensures NodeOk(cipher, secrets, keys, y, n')
  {
    var n := net.node[y];
    var ms := n'.down[|n.down|..];
    AnswerIsAuthentic(cipher, secrets, keys, net, z, net.node[z].up[0], y, ms);
    assert n'.down == n.down + ms;
    AppendDownOk(cipher, secrets, keys, y, n, n', ms);
  }

  lemma ServedSecrets(net: Net, z: nat, net': Net)
    requires ServesTo(net, z, net')
    ensures SecretsOf(net') == SecretsOf(net) && RoomKeys(net') == RoomKeys(net)
  {
    assert forall i :: i in net.node ==> Answered(net, z, i, net'.node[i]);
    SameKeysBrought(net, net');
  }

  lemma ServeKeepsAuth(cipher: Cipher, net: Net, z: nat, net': Net)
    requires AuthInv(cipher, net) && ServesTo(net, z, net')
    ensures AuthInv(cipher, net')
    ensures SecretsOf(net') == SecretsOf(net) && RoomKeys(net') == RoomKeys(net)
    ensures UpOk(cipher, SecretsOf(net), RoomKeys(net), z, net.node[z].up[0])
  {
    var secrets, keys := SecretsOf(net), RoomKeys(net);
    ServeKeepsShape(net, z, net');
    ServedSecrets(net, z, net');
    assert UpOk(cipher, secrets, keys, z, net.node[z].up[0]);
    forall y | y in net'.node
      ensures NodeOk(cipher, secrets, keys, y, net'.node[y])
    {
      ServeKeepsAuthOne(cipher, secrets, keys, net, z, y, net'.node[y]);
    }
  }
}
