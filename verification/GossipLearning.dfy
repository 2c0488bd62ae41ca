/** What a client knows is determined by the messages it has taken. */
module GossipLearning {
  import opened Bytes
  import opened Messages
  import opened Cipher
  import opened Client
  import opened Gossip
  import opened GossipTokens
  import opened GossipPairs
  import opened GossipAuth

  function TakenMessages(n: Node): seq<AppMessage> {
    if n.taken <= |n.down| then n.down[..n.taken] else n.down
  }

  /** The public key of p has been taken. */
  predicate Heard(n: Node, p: nat) {
    K in Tokens(TakenMessages(n), p)
  }

  /** p has been announced in ms. */
  predicate Announced(ms: seq<AppMessage>, p: nat) {
    exists k :: 0 <= k < |ms| && ms[k].UserJoined? && ms[k].id == p
  }

  ghost predicate HasRoomSource(n: Node) {
    exists p: nat :: KeyThenRoom(Tokens(TakenMessages(n), p))
  }

  /** Peer keys and the room key of client x, each exactly as far as the messages taken say. */
  ghost predicate KnowInv(x: nat, n: Node) {
    && (forall p: nat :: p in n.c.store.peers <==> Heard(n, p))
    && (n.c.store.room.Some? <==> n.saved.Some? || (x == 1 && n.taken >= 1) || HasRoomSource(n))
  }

  /** p has been offered the client's key, or is about to be. */
  predicate Owed(n: Node, p: nat) {
    p in n.c.offered || (n.rx.Offering? && n.rx.peer == p)
  }

  /** As long as no send fails: everyone announced or heard of is offered the key, before any room key. */
  ghost predicate OfferInv(n: Node) {
    && (forall p: nat :: Heard(n, p) || Announced(TakenMessages(n), p) ==> Owed(n, p))
    && (n.rx.Sealing? || n.rx.PostingRoom? ==> n.rx.peer in n.c.offered)
  }

  lemma TakeExtends(n: Node, m: AppMessage, p: nat)
    requires n.taken < |n.down| && m == n.down[n.taken]
    ensures n.down[..n.taken + 1] == TakenMessages(n) + [m]
    ensures Tokens(n.down[..n.taken + 1], p) == Tokens(TakenMessages(n), p) + TokenOf(m, p)
    ensures Announced(n.down[..n.taken + 1], p) <==> Announced(TakenMessages(n), p) || (m.UserJoined? && m.id == p)
  {
    var ms := TakenMessages(n);
    assert n.down[..n.taken + 1] == ms + [m];
    TokensAppend(ms, m, p);
    if Announced(ms, p) {
      var k :| 0 <= k < |ms| && ms[k].UserJoined? && ms[k].id == p;
      assert (ms + [m])[k].UserJoined?;
    }
    if m.UserJoined? && m.id == p {
      assert (ms + [m])[|ms|] == m;
    }
  }

  lemma TakenRoomSource(n: Node, n': Node, m: AppMessage)
    requires n.taken < |n.down| && m == n.down[n.taken] && n'.down == n.down && n'.taken == n.taken + 1
    requires !m.KeyOffer? && !m.RoomKeyOffer?
    ensures HasRoomSource(n') <==> HasRoomSource(n) || (m.RoomKey? && Heard(n, m.fromId))
  {
    hide KeyThenRoom, Tokens, TakenMessages;
    forall p: nat
      ensures KeyThenRoom(Tokens(TakenMessages(n'), p)) <==>
              KeyThenRoom(Tokens(TakenMessages(n), p)) || (m.RoomKey? && m.fromId == p && Heard(n, p))
    {
      TakenRoomFrom(n, n', m, p);
    }
  }

  lemma TakenRoomFrom(n: Node, n': Node, m: AppMessage, p: nat)
    requires n.taken < |n.down| && m == n.down[n.taken] && n'.down == n.down && n'.taken == n.taken + 1
    requires !m.KeyOffer? && !m.RoomKeyOffer?
    ensures KeyThenRoom(Tokens(TakenMessages(n'), p)) <==>
            KeyThenRoom(Tokens(TakenMessages(n), p)) || (m.RoomKey? && m.fromId == p && Heard(n, p))
  {
    hide KeyThenRoom, Tokens;
    assert TakenMessages(n') == n.down[..n.taken + 1];
    TakeExtends(n, m, p);
    var ts := Tokens(TakenMessages(n), p);
    KeyThenRoomAppend(ts, K);
    KeyThenRoomAppend(ts, R);
    assert ts + [] == ts;
  }

  lemma PublicSize(cipher: Cipher, secret: seq<Byte>)
    requires Lawful(cipher)
    ensures |cipher.publicOf(secret)| == KEY_SIZE
  {
  }

  /** A PeerKey is noted. */
  lemma TakeKeepsPeers(cipher: Cipher, secrets: Secrets, keys: set<seq<Byte>>, x: nat, n: Node, m: AppMessage, p: nat)
    requires Lawful(cipher) && n.taken < |n.down| && m == n.down[n.taken]
    requires DownOk(cipher, secrets, keys, x, m) && (p in n.c.store.peers <==> Heard(n, p))
    ensures p in Took(cipher, n, m).c.store.peers <==> Heard(Took(cipher, n, m), p)
  {
    hide Tokens, Announced, Lawful;
    if m.PeerKey? {
      PublicSize(cipher, secrets[m.fromId]);
    }
    assert TakenMessages(Took(cipher, n, m)) == n.down[..n.taken + 1];
    TakeExtends(n, m, p);
  }

  /** A PeerKey leads to an offer, and so does an announcement. */
  lemma TakeKeepsOwed(cipher: Cipher, secrets: Secrets, keys: set<seq<Byte>>, x: nat, n: Node, m: AppMessage, p: nat)
    requires Lawful(cipher) && n.taken < |n.down| && m == n.down[n.taken] && n.rx == Idle && n.c.id == x
    requires DownOk(cipher, secrets, keys, x, m)
    requires Heard(n, p) || Announced(TakenMessages(n), p) ==> p in n.c.offered
    ensures var n' := Took(cipher, n, m); Heard(n', p) || Announced(TakenMessages(n'), p) ==> Owed(n', p)
  {
    hide Tokens, Announced, Lawful;
    if m.PeerKey? {
      PublicSize(cipher, secrets[m.fromId]);
    }
    assert TakenMessages(Took(cipher, n, m)) == n.down[..n.taken + 1];
    TakeExtends(n, m, p);
  }

  /** Taking a message adds to the client's knowledge exactly what the message says. */
  lemma TakeKeepsKnowledge(cipher: Cipher, secrets: Secrets, keys: set<seq<Byte>>, x: nat, n: Node, m: AppMessage)
    requires Lawful(cipher) && AllSized(keys) && x in secrets && secrets[x] == n.c.store.secret
    requires NodeOk(cipher, secrets, keys, x, n) && 1 <= n.taken < |n.down| && m == n.down[n.taken] && n.rx == Idle
    requires KnowInv(x, n)
    ensures KnowInv(x, Took(cipher, n, m))
  {
    hide Heard, Announced, Lawful, HasRoomSource;
    var n' := Took(cipher, n, m);
    assert DownOk(cipher, secrets, keys, x, m) && n.c.id == x;
    if m.RoomKey? {
      TakenRoomKey(cipher, secrets, keys, x, n, m);
    }
    TakenRoomSource(n, n', m);
    forall p: nat
      ensures p in n'.c.store.peers <==> Heard(n', p)
    {
      assert p in n.c.store.peers <==> Heard(n, p);
      TakeKeepsPeers(cipher, secrets, keys, x, n, m, p);
    }
  }

  lemma StartKeepsKnowledge(cipher: Cipher, secrets: Secrets, keys: set<seq<Byte>>, x: nat, n: Node, nickname: Option<seq<Byte>>)
    requires NodeOk(cipher, secrets, keys, x, n) && n.taken == 0 < |n.down| && n.down[0] == AssignId(x, x == 1)
    ensures KnowInv(x, Started(n, n.down[0], nickname)) && OfferInv(Started(n, n.down[0], nickname))
  {
    var n' := Started(n, n.down[0], nickname);
    assert n.down[..1] == TakenMessages(n) + [n.down[0]];
    TakenRoomSource(n, n', n.down[0]);
    forall p: nat
      ensures !Heard(n', p) && !Announced(TakenMessages(n'), p)
      ensures Tokens(TakenMessages(n), p) == []
    {
      TakeExtends(n, n.down[0], p);
    }
  }

  /** Between messages and inside handlers nothing is learned or forgotten. */
  lemma OtherMovesLearnNothing(cipher: Cipher, n: Node, a: Action)
    requires IsLocal(a) && CanMove(n, a) && !a.Starts? && !a.Takes?
    ensures Moved(cipher, n, a).c.store == n.c.store && TakenMessages(Moved(cipher, n, a)) == TakenMessages(n)
  {
  }

  lemma MoveKeepsKnowledge(cipher: Cipher, secrets: Secrets, keys: set<seq<Byte>>, x: nat, n: Node, a: Action)
    requires Lawful(cipher) && AllSized(keys) && x in secrets && secrets[x] == n.c.store.secret
    requires NodeOk(cipher, secrets, keys, x, n) && KnowInv(x, n) && IsLocal(a) && CanMove(n, a)
    requires n.down != [] && n.down[0] == AssignId(x, x == 1)
    ensures KnowInv(x, Moved(cipher, n, a))
  {
    if a.Starts? {
      StartKeepsKnowledge(cipher, secrets, keys, x, n, a.nickname);
    } else if a.Takes? {
      TakeKeepsKnowledge(cipher, secrets, keys, x, n, n.down[n.taken]);
    } else {
      OtherMovesLearnNothing(cipher, n, a);
      assert n.taken >= 1 && Moved(cipher, n, a).taken == n.taken;
      assert HasRoomSource(Moved(cipher, n, a)) <==> HasRoomSource(n);
    }
  }

  /** Obligations turn into marks, and no mark is lost unless a send fails. */
  lemma OtherMovesKeepOwed(cipher: Cipher, n: Node, a: Action, p: nat)
    requires IsLocal(a) && CanMove(n, a) && !a.Starts? && !a.Takes? && !SendFails(a) && Owed(n, p)
    requires n.rx.Offering? ==> n.rx.peer != 0 && n.rx.peer != n.c.id
    ensures Owed(Moved(cipher, n, a), p)
  {
  }

  lemma MoveKeepsOffers(cipher: Cipher, secrets: Secrets, keys: set<seq<Byte>>, x: nat, n: Node, a: Action)
    requires Lawful(cipher) && x in secrets && NodeOk(cipher, secrets, keys, x, n) && IsLocal(a) && CanMove(n, a)
    requires OfferInv(n) && !SendFails(a) && n.down != [] && n.down[0] == AssignId(x, x == 1)
    ensures OfferInv(Moved(cipher, n, a))
  {
    hide Heard, Announced, Lawful;
    var n' := Moved(cipher, n, a);
    if a.Starts? {
      StartKeepsKnowledge(cipher, secrets, keys, x, n, a.nickname);
    } else if a.Takes? {
      var m := n.down[n.taken];
      assert DownOk(cipher, secrets, keys, x, m) && n.c.id == x;
      forall p: nat
        ensures Heard(n', p) || Announced(TakenMessages(n'), p) ==> Owed(n', p)
      {
        TakeKeepsOwed(cipher, secrets, keys, x, n, m, p);
      }
    } else {
      OtherMovesLearnNothing(cipher, n, a);
      forall p: nat | Heard(n', p) || Announced(TakenMessages(n'), p)
        ensures Owed(n', p)
      {
        SameHeard(n, n', p);
        OtherMovesKeepOwed(cipher, n, a, p);
      }
    }
  }

  lemma SameHeard(n: Node, n': Node, p: nat)
    requires TakenMessages(n') == TakenMessages(n)
    ensures Heard(n', p) <==> Heard(n, p)
  {
  }

  /** New messages that have not been taken change nothing. */
  lemma ArrivalKeepsKnowledge(x: nat, n: Node, n': Node)
    requires KnowInv(x, n) && n.taken <= |n.down| && n.down <= n'.down && n'.taken == n.taken
    requires n'.c == n.c && n'.rx == n.rx && n'.saved == n.saved
    ensures KnowInv(x, n') && (OfferInv(n) ==> OfferInv(n'))
  {
    assert TakenMessages(n') == TakenMessages(n);
  }

  // ----- the creator's duty -----

  /** As long as no send fails: client 1 sends its room key to everyone whose public key it has taken, or is just about to. */
  ghost predicate CreatorInv(net: Net) {
    1 in net.node ==> forall p: nat :: Heard(net.node[1], p) ==> CreatorServes(net, p)
  }

  ghost predicate CreatorServes(net: Net, p: nat)
    requires 1 in net.node
  {
    R in Stream(net, 1, p) || (RoomPhase(net.node[1].rx) && net.node[1].rx.peer == p)
  }

  /** The creator's receive thread goes on towards sending p the room key, and in the end sends it. */
  lemma DutyGoesOn(cipher: Cipher, secrets: Secrets, keys: set<seq<Byte>>, n: Node, a: Action, p: nat)
    requires AllSized(keys) && IsLocal(a) && CanMove(n, a) && Lawful(cipher) && !SendFails(a)
    requires NodeOk(cipher, secrets, keys, 1, n) && KnowInv(1, n) && RoomPhase(n.rx) && n.rx.peer == p
    ensures var n' := Moved(cipher, n, a);
            (RoomPhase(n'.rx) && n'.rx.peer == p) || TokenOfPosted(PostedBy(n, a), p) == [R]
  {
    hide NodeOk, KnowInv, RoomKeyFor, Absorbed, ById;
    StartsIdle(cipher, secrets, keys, 1, n);
    if n.rx.Sealing? && a.Continues? {
      RoomKeyIsReady(cipher, secrets, keys, n, a.nonce);
    } else if n.rx.PostingRoom? && a.Continues? {
      TargetOfOffer(n.c.id, p, n.rx.sealed);
    }
  }

  lemma StartsIdle(cipher: Cipher, secrets: Secrets, keys: set<seq<Byte>>, x: nat, n: Node)
    requires NodeOk(cipher, secrets, keys, x, n)
    ensures n.taken == 0 ==> n.rx == Idle
    ensures n.rx != Idle ==> 0 < n.rx.peer < U32_LIMIT
  {
    hide UpOk, DownOk, SealedFor;
  }

  /** The creator has a room key for whoever it is about to send one to. */
  lemma RoomKeyIsReady(cipher: Cipher, secrets: Secrets, keys: set<seq<Byte>>, n: Node, nonce: seq<Byte>)
    requires Lawful(cipher) && AllSized(keys) && NodeOk(cipher, secrets, keys, 1, n) && KnowInv(1, n) && n.rx.Sealing?
    ensures RoomKeyFor(cipher, n.c, n.rx.peer, nonce).Some?
  {
    hide UpOk, DownOk, SealedFor, Heard, HasRoomSource;
    assert n.taken >= 1 && n.c.store.room.Some?;
    assert n.rx.peer in n.c.store.peers && n.rx.peer in secrets;
  }

  lemma CreatorMoves(cipher: Cipher, secrets: Secrets, keys: set<seq<Byte>>, net: Net, a: Action, net': Net, p: nat)
    requires AllSized(keys) && IsLocal(a) && MovesTo(cipher, net, a, net') && a.x == 1 && !SendFails(a)
    requires NodeOk(cipher, secrets, keys, 1, net.node[1]) && KnowInv(1, net.node[1]) && Lawful(cipher)
    requires CreatorServes(net, p)
    ensures CreatorServes(net', p)
  {
    var n := net.node[1];
    MoveIsLocal(cipher, net, a, net');
    LocalStreams(net, net', 1, PostedBy(n, a), 1, p);
    if R !in Stream(net, 1, p) {
      DutyGoesOn(cipher, secrets, keys, n, a, p);
    }
  }

  lemma CreatorTakes(cipher: Cipher, secrets: Secrets, keys: set<seq<Byte>>, net: Net, a: Action, net': Net, p: nat)
    requires Lawful(cipher) && a.Takes? && MovesTo(cipher, net, a, net') && a.x == 1
    requires NodeOk(cipher, secrets, keys, 1, net.node[1])
    requires !Heard(net.node[1], p) && Heard(net'.node[1], p)
    ensures CreatorServes(net', p)
  {
    var n := net.node[1];
    var m := n.down[n.taken];
    assert DownOk(cipher, secrets, keys, 1, m);
    TakeExtends(n, m, p);
  }

  lemma MoveKeepsCreator(cipher: Cipher, net: Net, a: Action, net': Net)
    requires Lawful(cipher) && AuthInv(cipher, net) && IsLocal(a) && MovesTo(cipher, net, a, net')
    requires CreatorInv(net) && 1 in net.node && KnowInv(1, net.node[1]) && !SendFails(a)
    ensures CreatorInv(net')
  {
    hide NodeOk, Moved, CanMove, KnowInv, Tokens, Lawful;
    RoomKeysHaveSize(cipher, net);
    var secrets, keys := SecretsOf(net), RoomKeys(net);
    assert NodeOk(cipher, secrets, keys, 1, net.node[1]);
    forall p: nat | Heard(net'.node[1], p)
      ensures CreatorServes(net', p)
    {
      if a.x != 1 {
        MoveIsLocal(cipher, net, a, net');
        LocalStreams(net, net', a.x, PostedBy(net.node[a.x], a), 1, p);
      } else if Heard(net.node[1], p) {
        CreatorMoves(cipher, secrets, keys, net, a, net', p);
      } else if a.Takes? {
        CreatorTakes(cipher, secrets, keys, net, a, net', p);
      } else {
        HeardOnlyByTaking(cipher, net.node[1], a, p);
      }
    }
  }

  lemma HeardOnlyByTaking(cipher: Cipher, n: Node, a: Action, p: nat)
    requires IsLocal(a) && CanMove(n, a) && !a.Takes? && n.taken <= |n.down|
    ensures Heard(Moved(cipher, n, a), p) <==> Heard(n, p)
  {
    if a.Starts? {
      TakeExtends(n, n.down[0], p);
    } else {
      assert TakenMessages(Moved(cipher, n, a)) == TakenMessages(n);
    }
  }

  /** The first message client z has sent is no relayed one, and a room key is for a connected client. */
  lemma ServedMessage(cipher: Cipher, net: Net, z: nat)
    requires AuthInv(cipher, net) && z in net.node && net.node[z].up != []
    ensures var m := net.node[z].up[0]; !m.PeerKey? && !m.RoomKey? && (m.RoomKeyOffer? ==> Target(m) in net.node)
  {
    assert NodeOk(cipher, SecretsOf(net), RoomKeys(net), z, net.node[z]);
    assert UpOk(cipher, SecretsOf(net), RoomKeys(net), z, net.node[z].up[0]);
  }

  lemma ServeKeepsCreator(cipher: Cipher, net: Net, z: nat, net': Net)
    requires AuthInv(cipher, net) && ServesTo(net, z, net') && CreatorInv(net)
    ensures CreatorInv(net')
  {
    ServeKeepsAuth(cipher, net, z, net');
    hide AuthInv, Heard, CreatorServes, Answered;
    ServedMessage(cipher, net, z);
    if 1 in net'.node {
      ServeKeepsTaken(cipher, net, z, net');
      forall p: nat | Heard(net'.node[1], p)
        ensures CreatorServes(net', p)
      {
        assert CreatorServes(net, p);
        ServeKeepsDebt(net, z, net', p);
      }
    }
  }

  /** The creator has not taken anything new. */
  lemma ServeKeepsTaken(cipher: Cipher, net: Net, z: nat, net': Net)
    requires AuthInv(cipher, net) && ServesTo(net, z, net') && 1 in net.node
    ensures forall p: nat :: Heard(net'.node[1], p) <==> Heard(net.node[1], p)
  {
    hide NodeOk, Answers;
    assert Answered(net, z, 1, net'.node[1]);
    assert TakenMessages(net'.node[1]) == TakenMessages(net.node[1]);
  }

  lemma ServeKeepsDebt(net: Net, z: nat, net': Net, p: nat)
    requires ServesTo(net, z, net') && 1 in net.node && CreatorServes(net, p)
    requires var m := net.node[z].up[0]; !m.PeerKey? && !m.RoomKey? && (m.RoomKeyOffer? ==> Target(m) in net.node)
    ensures CreatorServes(net', p)
  {
    hide Answers, Stream, TokenOf, Target;
    assert Answered(net, z, 1, net'.node[1]);
    ServeMovesStream(net, z, net', 1, p);
    OfferToken(net, net.node[z].up[0], p);
  }
}
