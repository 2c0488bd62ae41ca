/** Every step keeps the books on offers: each marked offer is in one place, and the order is recorded. */
module GossipPairs {
  import opened Bytes
  import opened Messages
  import opened Cipher
  import opened Client
  import opened Gossip
  import opened GossipTokens

  /** Only client z has moved, and it has sent `posted`, at most one message. */
  ghost predicate LocalStep(net: Net, net': Net, z: nat, posted: seq<AppMessage>) {
    && z in net.node && z in net'.node && |posted| <= 1
    && net' == net.(node := net.node[z := net'.node[z]], inOrder := net'.inOrder)
    && net'.node[z].down == net.node[z].down && net'.node[z].up == net.node[z].up + posted
  }

  function TokenOfPosted(posted: seq<AppMessage>, y: nat): seq<Token> {
    if |posted| == 1 then TokenOf(posted[0], y) else []
  }

  lemma LocalStreams(net: Net, net': Net, z: nat, posted: seq<AppMessage>, x: nat, y: nat)
    requires LocalStep(net, net', z, posted)
    ensures Stream(net', x, y) == Stream(net, x, y) + (if x == z then TokenOfPosted(posted, y) else [])
  {
    var up := net.node[z].up;
    if x == z && |posted| == 1 {
      assert posted == [posted[0]];
      TokensAppend(up, posted[0], y);
      if y in net.node {
        Assoc(Tokens(net.node[y].down, x), Tokens(up, y), TokenOf(posted[0], y));
      }
    } else if x == z {
      assert up + posted == up;
    }
  }

  lemma TargetOfOffer(fromId: nat, peer: nat, text: seq<Byte>)
    requires peer < U32_LIMIT
    ensures Target(KeyOffer(ById(fromId, peer, text))) == peer
    ensures Target(RoomKeyOffer(ById(fromId, peer, text))) == peer
  {
  }

  /** The part of the books that concerns client x as a sender. */
  ghost predicate SenderInv(net: Net, x: nat)
    requires x in net.node
  {
    forall y: nat :: OneOffer(net, x, y) && OrderRecorded(net, x, y)
  }

  ghost predicate PairsInv(net: Net) {
    && (forall x :: x in net.node ==> SenderInv(net, x))
    && (forall x, y: nat :: (x, y) in net.bounced ==> x in net.node && x < y)
    && (forall x, y: nat :: (x, y) in net.inOrder ==> x in net.node)
  }

  lemma OthersKeepBooks(net: Net, net': Net, z: nat, posted: seq<AppMessage>)
    requires LocalStep(net, net', z, posted) && PairsInv(net) && SenderInv(net', z)
    requires forall x, y: nat :: x != z ==> ((x, y) in net'.inOrder <==> (x, y) in net.inOrder)
    ensures PairsInv(net')
  {
    forall x | x in net'.node
      ensures SenderInv(net', x)
    {
      if x != z {
        forall y: nat
          ensures OneOffer(net', x, y) && OrderRecorded(net', x, y)
        {
          LocalStreams(net, net', z, posted, x, y);
          assert OneOffer(net, x, y) && OrderRecorded(net, x, y);
        }
      }
    }
  }

  /** Sending a public key: the offer moves from a thread's hands into the stream. */
  lemma KeyPosted(net: Net, net': Net, z: nat, m: AppMessage, peer: nat, y: nat)
    requires LocalStep(net, net', z, [m]) && OneOffer(net, z, y) && OrderRecorded(net, z, y)
    requires m.KeyOffer? && Target(m) == peer && net'.inOrder == net.inOrder
    requires net'.node[z].c.offered == net.node[z].c.offered
    requires var n, n' := net.node[z], net'.node[z];
             || (n.tx == Sending(peer) && n'.tx == Ready && n'.rx == n.rx)
             || (n.rx.Posting? && n.rx.peer == peer && !n'.rx.Posting? && n'.tx == n.tx)
    ensures OneOffer(net', z, y) && OrderRecorded(net', z, y)
  {
    LocalStreams(net, net', z, [m], z, y);
    if y == peer {
      CountAppend(Stream(net, z, y), K);
      KeyThenRoomAppend(Stream(net, z, y), K);
    } else {
      assert Stream(net', z, y) == Stream(net, z, y);
    }
  }

  /** Sending a sealed room key, and recording whether the public key has been sent before it. */
  lemma RoomKeyPosted(net: Net, net': Net, z: nat, m: AppMessage, peer: nat, y: nat)
    requires LocalStep(net, net', z, [m]) && OneOffer(net, z, y) && OrderRecorded(net, z, y)
    requires m.RoomKeyOffer? && Target(m) == peer
    requires var n, n' := net.node[z], net'.node[z];
             && n.rx.PostingRoom? && n.rx.peer == peer
             && n'.rx == Idle && n'.tx == n.tx && n'.c.offered == n.c.offered
             && net'.inOrder == if peer in n.c.offered && n.tx != Sending(peer) then net.inOrder + {(z, peer)} else net.inOrder
    ensures OneOffer(net', z, y) && OrderRecorded(net', z, y)
  {
    LocalStreams(net, net', z, [m], z, y);
    if y == peer {
      CountAppend(Stream(net, z, y), R);
      KeyThenRoomAppend(Stream(net, z, y), R);
      assert Count(Stream(net, z, y)) > 0 <==> K in Stream(net, z, y);
    } else {
      assert Stream(net', z, y) == Stream(net, z, y);
    }
  }

  /** A failed send: the offer is gone from the thread's hands and the peer is no longer marked. */
  lemma OfferDropped(net: Net, net': Net, z: nat, peer: nat, y: nat)
    requires LocalStep(net, net', z, []) && OneOffer(net, z, y) && OrderRecorded(net, z, y)
    requires net'.inOrder == net.inOrder && net'.node[z].c.offered == net.node[z].c.offered - {peer}
    requires var n, n' := net.node[z], net'.node[z];
             || (n.tx == Sending(peer) && n'.tx == Ready && n'.rx == n.rx)
             || (n.rx.Posting? && n.rx.peer == peer && !n'.rx.Posting? && n'.tx == n.tx)
    ensures OneOffer(net', z, y) && OrderRecorded(net', z, y)
  {
    hide Stream;
    LocalStreams(net, net', z, [], z, y);
    assert Stream(net', z, y) == Stream(net, z, y);
  }

  /** A step that sends no offer and hands none over leaves the books alone, unless it marks a new one. */
  lemma NothingPosted(net: Net, net': Net, z: nat, posted: seq<AppMessage>, y: nat)
    requires LocalStep(net, net', z, posted) && OneOffer(net, z, y) && OrderRecorded(net, z, y)
    requires TokenOfPosted(posted, y) == [] && net'.inOrder == net.inOrder
    requires var n, n' := net.node[z], net'.node[z];
             || (n'.c.offered == n.c.offered && n'.tx == n.tx && !n.rx.Posting? && !n'.rx.Posting?)
             || (n'.c.offered == n.c.offered && n'.tx == n.tx && n'.rx == n.rx)
             || (n.rx.Offering? && n'.rx.Posting? && n'.tx == n.tx
                 && n'.rx.peer !in n.c.offered && n'.c.offered == n.c.offered + {n'.rx.peer})
             || (n.tx == Ready && n'.tx.Sending? && n'.rx == n.rx
                 && n'.tx.peer !in n.c.offered && n'.c.offered == n.c.offered + {n'.tx.peer})
    ensures OneOffer(net', z, y) && OrderRecorded(net', z, y)
  {
    LocalStreams(net, net', z, posted, z, y);
    assert Stream(net', z, y) == Stream(net, z, y);
  }

  /** Peers named in a thread's hands or marks are foreign ids that fit the wire. */
  predicate SanePeers(n: Node, x: nat) {
    && (forall p :: p in n.c.offered ==> p != 0 && p != x && p < U32_LIMIT)
    && (n.rx != Idle ==> n.rx.peer != 0 && n.rx.peer != x && n.rx.peer < U32_LIMIT)
    && (n.rx.Posting? ==> n.rx.peer in n.c.offered)
    && (n.tx.Sending? ==> n.tx.peer in n.c.offered)
    && (n.tx.Sending? && n.rx.Posting? ==> n.tx.peer != n.rx.peer)
  }

  /** What an action makes its client send. */
  function PostedBy(n: Node, a: Action): (ms: seq<AppMessage>)
    ensures |ms| <= 1
  {
    match a
    case Starts(_, nickname) => if nickname.Some? then [Register(nickname.value)] else []
    case Continues(_, _) =>
      (match n.rx
       case Posting(peer, _) => [OfferOf(n, peer)]
       case PostingRoom(peer, sealed) => [RoomKeyOffer(ById(n.c.id, peer, sealed))]
       case _ => [])
    case Posts(_) => if n.tx.Sending? then [OfferOf(n, n.tx.peer)] else []
    case Says(_, m) => [m]
    case _ => []
  }

  predicate IsLocal(a: Action) {
    !a.Joins? && !a.Serves?
  }

  lemma MoveIsLocal(cipher: Cipher, net: Net, a: Action, net': Net)
    requires IsLocal(a) && MovesTo(cipher, net, a, net')
    ensures LocalStep(net, net', a.x, PostedBy(net.node[a.x], a))
  {
  }

  lemma MoveKeepsSender(cipher: Cipher, net: Net, a: Action, net': Net, y: nat)
    requires IsLocal(a) && MovesTo(cipher, net, a, net') && SanePeers(net.node[a.x], a.x)
    requires OneOffer(net, a.x, y) && OrderRecorded(net, a.x, y)
    ensures OneOffer(net', a.x, y) && OrderRecorded(net', a.x, y)
  {
    hide OneOffer, OrderRecorded, LocalStep, RoomKeyFor, ById, Target;
    var n, n' := net.node[a.x], net'.node[a.x];
    MoveIsLocal(cipher, net, a, net');
    if a.Posts? {
      TargetOfOffer(n.c.id, n.tx.peer, n.c.store.public);
      KeyPosted(net, net', a.x, OfferOf(n, n.tx.peer), n.tx.peer, y);
    } else if a.Continues? && n.rx.Posting? {
      TargetOfOffer(n.c.id, n.rx.peer, n.c.store.public);
      KeyPosted(net, net', a.x, OfferOf(n, n.rx.peer), n.rx.peer, y);
    } else if a.Continues? && n.rx.PostingRoom? {
      TargetOfOffer(n.c.id, n.rx.peer, n.rx.sealed);
      RoomKeyPosted(net, net', a.x, RoomKeyOffer(ById(n.c.id, n.rx.peer, n.rx.sealed)), n.rx.peer, y);
    } else if a.PostFails? {
      OfferDropped(net, net', a.x, n.tx.peer, y);
    } else if a.ContinueFails? && n.rx.Posting? {
      OfferDropped(net, net', a.x, n.rx.peer, y);
    } else {
      NothingPosted(net, net', a.x, PostedBy(n, a), y);
    }
  }

  lemma MoveKeepsPairs(cipher: Cipher, net: Net, a: Action, net': Net)
    requires IsLocal(a) && MovesTo(cipher, net, a, net') && SanePeers(net.node[a.x], a.x) && PairsInv(net)
    ensures PairsInv(net')
  {
    MoveIsLocal(cipher, net, a, net');
    forall y: nat
      ensures OneOffer(net', a.x, y) && OrderRecorded(net', a.x, y)
    {
      assert SenderInv(net, a.x);
      MoveKeepsSender(cipher, net, a, net', y);
    }
    OthersKeepBooks(net, net', a.x, PostedBy(net.node[a.x], a));
  }

  // ----- serving and joining -----

  /** Client x's threads and marks are as before. */
  predicate SameThreads(n: Node, n': Node) {
    n'.tx == n.tx && n'.rx == n.rx && n'.c == n.c
  }

  lemma BounceKeepsBooks(net: Net, net': Net, x: nat, y: nat)
    requires x in net.node && x in net'.node && OneOffer(net, x, y) && SameThreads(net.node[x], net'.node[x])
    requires Stream(net, x, y) == [K] + Stream(net', x, y) && (x, y) in net'.bounced
    ensures OneOffer(net', x, y) && OrderRecorded(net', x, y)
  {
    var before, after := Stream(net, x, y), Stream(net', x, y);
    assert before[1..] == after;
    CountHead(before);
    assert Count(after) == 0;
  }

  lemma SameStreamKeepsBooks(net: Net, net': Net, x: nat, y: nat)
    requires x in net.node && x in net'.node && OneOffer(net, x, y) && OrderRecorded(net, x, y)
    requires SameThreads(net.node[x], net'.node[x]) && Stream(net, x, y) == Stream(net', x, y)
    requires ((x, y) in net'.bounced <==> (x, y) in net.bounced) && ((x, y) in net'.inOrder <==> (x, y) in net.inOrder)
    ensures OneOffer(net', x, y) && OrderRecorded(net', x, y)
  {
  }

  lemma ServeKeepsThreads(net: Net, z: nat, net': Net, x: nat)
    requires ServesTo(net, z, net') && x in net.node
    ensures SameThreads(net.node[x], net'.node[x])
  {
    hide Answers;
    assert Answered(net, z, x, net'.node[x]);
  }

  /** For a client that is not connected yet only a KeyOffer is a token. */
  lemma OfferToken(net: Net, m: AppMessage, y: nat)
    requires !m.PeerKey? && !m.RoomKey? && (m.RoomKeyOffer? ==> Target(m) in net.node)
    ensures y !in net.node ==> TokenOf(m, y) == if m.KeyOffer? && Target(m) == y then [K] else []
  {
    hide Target;
  }

  lemma ServeKeepsSender(net: Net, z: nat, net': Net, x: nat, y: nat)
    requires ServesTo(net, z, net') && x in net.node && OneOffer(net, x, y) && OrderRecorded(net, x, y)
    requires var m := net.node[z].up[0];
             !m.PeerKey? && !m.RoomKey? && (m.RoomKeyOffer? ==> Target(m) in net.node)
    ensures OneOffer(net', x, y) && OrderRecorded(net', x, y)
  {
    hide Stream, OneOffer, OrderRecorded, Answered, SameThreads, Target, TokenOf;
    var m := net.node[z].up[0];
    ServeKeepsThreads(net, z, net', x);
    OfferToken(net, m, y);
    ServeMovesStream(net, z, net', x, y);
    if x == z && y !in net.node && m.KeyOffer? && Target(m) == y {
      BounceKeepsBooks(net, net', x, y);
    } else {
      assert [] + Stream(net', x, y) == Stream(net', x, y);
      SameStreamKeepsBooks(net, net', x, y);
    }
  }

  lemma ServeKeepsPairs(net: Net, z: nat, net': Net)
    requires ServesTo(net, z, net') && PairsInv(net) && Shape(net)
    requires var m := net.node[z].up[0];
             && !m.PeerKey? && !m.RoomKey? && (m.RoomKeyOffer? ==> Target(m) in net.node)
             && (m.KeyOffer? ==> Target(m) != 0)
    ensures PairsInv(net')
  {
    hide OneOffer, OrderRecorded, Answered, Target;
    forall x | x in net'.node
      ensures SenderInv(net', x)
    {
      assert SenderInv(net, x);
      forall y: nat
        ensures OneOffer(net', x, y) && OrderRecorded(net', x, y)
      {
        ServeKeepsSender(net, z, net', x, y);
      }
    }
    BouncesAreRecorded(net, z, net');
  }

  lemma BouncesAreRecorded(net: Net, z: nat, net': Net)
    requires ServesTo(net, z, net') && PairsInv(net) && Shape(net)
    requires var m := net.node[z].up[0]; m.KeyOffer? ==> Target(m) != 0
    ensures forall x, y: nat :: (x, y) in net'.bounced ==> x in net'.node && x < y
  {
    hide SenderInv, Answered, Target;
  }

  lemma JoinKeepsPairs(cipher: Cipher, net: Net, secret: seq<Byte>, random: seq<Byte>, saved: Option<seq<Byte>>, net': Net)
    requires JoinsTo(cipher, net, secret, random, saved, net') && PairsInv(net) && Shape(net)
    requires forall y :: y in net.node ==> Tokens(net.node[y].down, net.size + 1) == []
    ensures PairsInv(net')
  {
    var newcomer := net.size + 1;
    forall x | x in net'.node
      ensures SenderInv(net', x)
    {
      forall y: nat
        ensures OneOffer(net', x, y) && OrderRecorded(net', x, y)
      {
        JoinKeepsStream(cipher, net, secret, random, saved, net', x, y);
        if x != newcomer {
          assert SenderInv(net, x);
          assert OneOffer(net, x, y) && OrderRecorded(net, x, y);
        } else {
          assert Stream(net, x, y) == [];
        }
      }
    }
  }
}
