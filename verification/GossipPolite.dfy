/** A condition on the users' commands under which the exchange always converges. */
module GossipPolite {
  import opened Bytes
  import opened Messages
  import opened Cipher
  import opened Client
  import opened Gossip
  import opened GossipTokens
  import opened GossipPairs
  import opened GossipAuth
  import opened GossipLearning
  import opened GossipConvergence

  /** "/key" is used for connected clients only, and not at the client that created the room. */
  ghost predicate Polite(net: Net, a: Action) {
    a.OffersKey? ==> a.peer in net.node && a.x != 1
  }

  /** Every marked peer is connected, so no offer bounces; and the creator's input thread never holds one. */
  ghost predicate PoliteInv(net: Net) {
    && (forall x, p :: x in net.node && p in net.node[x].c.offered ==> p in net.node)
    && net.bounced == {}
    && (1 in net.node ==> net.node[1].tx == Ready)
    && (forall p: nat :: R in Stream(net, 1, p) ==> (1, p) in net.inOrder)
  }

  /** A pending offer is marked, hence for a connected client. */
  lemma PendingIsMarked(net: Net, z: nat, m: AppMessage)
    requires PairsInv(net) && z in net.node && net.node[z].up != [] && m == net.node[z].up[0] && m.KeyOffer?
    ensures Target(m) in net.node[z].c.offered
  {
    var y := Target(m);
    TokensHead(net.node[z].up, y);
    assert K in TokenOf(m, y);
    assert K in Stream(net, z, y);
    assert SenderInv(net, z) && OneOffer(net, z, y);
    assert Count(Stream(net, z, y)) > 0 <==> K in Stream(net, z, y);
  }

  lemma ServeKeepsPolite(cipher: Cipher, net: Net, z: nat, net': Net)
    requires Inv(cipher, net) && PoliteInv(net) && ServesTo(net, z, net')
    ensures PoliteInv(net')
  {
    hide AuthInv, PairsInv, Answers, Stream, Target;
    var m := net.node[z].up[0];
    if m.KeyOffer? {
      PendingIsMarked(net, z, m);
    }
    assert forall i :: i in net.node ==> Answered(net, z, i, net'.node[i]);
    ServedMessage(cipher, net, z);
    ServeKeepsOrder(net, z, net');
  }

  lemma ServeKeepsOrder(net: Net, z: nat, net': Net)
    requires PoliteInv(net) && ServesTo(net, z, net') && !net.node[z].up[0].PeerKey? && !net.node[z].up[0].RoomKey?
    ensures forall p: nat :: R in Stream(net', 1, p) ==> (1, p) in net'.inOrder
  {
    hide Answered, Stream, TokenOf;
    forall p: nat | R in Stream(net', 1, p)
      ensures (1, p) in net'.inOrder
    {
      ServeMovesStream(net, z, net', 1, p);
      assert R in Stream(net, 1, p);
    }
  }


  lemma MoveKeepsMarks(cipher: Cipher, secrets: Secrets, keys: set<seq<Byte>>, x: nat, n: Node, a: Action, p: nat)
    requires IsLocal(a) && CanMove(n, a) && NodeOk(cipher, secrets, keys, x, n)
    requires p in Moved(cipher, n, a).c.offered && p !in n.c.offered
    ensures p in secrets || (a.OffersKey? && a.peer == p)
  {
  }

  lemma CreatorStaysReady(cipher: Cipher, net: Net, a: Action, net': Net)
    requires PoliteInv(net) && Polite(net, a) && IsLocal(a) && MovesTo(cipher, net, a, net')
    requires 1 in net.node && SanePeers(net.node[a.x], a.x) && OfferInv(net.node[1])
    ensures net'.node[1].tx == Ready
    ensures forall p: nat :: R in Stream(net', 1, p) ==> (1, p) in net'.inOrder
  {
    hide Stream, Heard, Announced;
    MoveIsLocal(cipher, net, a, net');
    var posted := PostedBy(net.node[a.x], a);
    forall p: nat | R in Stream(net', 1, p)
      ensures (1, p) in net'.inOrder
    {
      LocalStreams(net, net', a.x, posted, 1, p);
      if R !in Stream(net, 1, p) {
        assert a.x == 1 && R in TokenOfPosted(posted, p);
        var n := net.node[1];
        assert a.Continues? && n.rx.PostingRoom?;
        TargetOfOffer(n.c.id, n.rx.peer, n.rx.sealed);
      }
    }
  }

  /** New marks are for connected clients. */
  lemma MarksStayConnected(cipher: Cipher, net: Net, a: Action, x: nat, p: nat)
    requires AuthInv(cipher, net) && IsLocal(a) && x in net.node && CanMove(net.node[x], a) && Polite(net, a)
    requires p in Moved(cipher, net.node[x], a).c.offered && p !in net.node[x].c.offered
    ensures p in net.node
  {
    hide Moved, CanMove, NodeOk;
    assert NodeOk(cipher, SecretsOf(net), RoomKeys(net), x, net.node[x]);
    MoveKeepsMarks(cipher, SecretsOf(net), RoomKeys(net), x, net.node[x], a, p);
  }

  lemma MoveKeepsPolite(cipher: Cipher, net: Net, a: Action, net': Net)
    requires AuthInv(cipher, net) && DutyInv(net) && PoliteInv(net) && Polite(net, a) && IsLocal(a) && MovesTo(cipher, net, a, net')
    ensures PoliteInv(net')
  {
    hide AuthInv, Moved, CanMove, OfferInv, CreatorInv, Stream, Polite;
    MoverIsSane(cipher, net, a.x);
    CreatorStaysReady(cipher, net, a, net');
    forall x, p | x in net'.node && p in net'.node[x].c.offered
      ensures p in net'.node
    {
      if x == a.x && p !in net.node[x].c.offered {
        MarksStayConnected(cipher, net, a, x, p);
      }
    }
  }

  lemma JoinKeepsPolite(cipher: Cipher, net: Net, secret: seq<Byte>, random: seq<Byte>, saved: Option<seq<Byte>>, net': Net)
    requires Shape(net) && PoliteInv(net) && JoinsTo(cipher, net, secret, random, saved, net')
    ensures PoliteInv(net')
  {
    forall p: nat | R in Stream(net', 1, p)
      ensures (1, p) in net'.inOrder
    {
      JoinKeepsStream(cipher, net, secret, random, saved, net', 1, p);
    }
  }

  lemma StartsPolite()
    ensures PoliteInv(EmptyNet())
  {
  }

  lemma InvParts(cipher: Cipher, net: Net)
    requires Inv(cipher, net)
    ensures AuthInv(cipher, net) && Shape(net)
  {
  }

  lemma {:induction false} ReachesPolite(cipher: Cipher, r: Run, j: nat)
    requires Lawful(cipher) && IsRun(cipher, r) && Faultless(r, j)
    requires forall i :: 0 <= i < j ==> Polite(r.nets[i], r.actions[i])
    ensures PoliteInv(r.nets[j])
  {
    hide Inv, DutyInv, PoliteInv, JoinsTo, ServesTo, MovesTo, Polite;
    if j == 0 {
      StartsPolite();
    } else {
      ReachesPolite(cipher, r, j - 1);
      ReachesInv(cipher, r, j - 1);
      ReachesDuty(cipher, r, j - 1);
      var net, a, net' := r.nets[j - 1], r.actions[j - 1], r.nets[j];
      assert Next(cipher, net, a, net');
      match a {
        case Joins(secret, random, saved) =>
          InvParts(cipher, net);
          JoinKeepsPolite(cipher, net, secret, random, saved, net');
        case Serves(z) => ServeKeepsPolite(cipher, net, z, net');
        case _ =>
          InvParts(cipher, net);
          MoveKeepsPolite(cipher, net, a, net');
      }
    }
  }

  lemma PoliteRoomKey(cipher: Cipher, net: Net, y: nat)
    requires Inv(cipher, net) && DutyInv(net) && PoliteInv(net) && Quiescent(net) && y in net.node && y != 1
    ensures SentRoomKey(net, y)
  {
    RestingPairIff(cipher, net, 1, y);
    var n := net.node[1];
    assert KnowInv(1, n) && AtRest(n);
    assert Heard(n, y) && CreatorServes(net, y);
    assert (1, y) in net.inOrder && (1, y) !in net.bounced;
  }

  /**
   * Convergence: in every run in which no send fails, "/key" names connected clients only and is not used
   * by the room's creator, whenever nothing is under way every two clients hold each other's public key
   * and every client holds a room key; and that is the creator's if nobody had saved another.
   */
  lemma PoliteRunsConverge(cipher: Cipher, r: Run, j: nat)
    requires Lawful(cipher) && IsRun(cipher, r) && Faultless(r, j)
    requires forall i :: 0 <= i < j ==> Polite(r.nets[i], r.actions[i])
    requires Quiescent(r.nets[j])
    ensures AllExchanged(cipher, r.nets[j]) && forall y :: y in r.nets[j].node ==> r.nets[j].node[y].c.store.room.Some?
    ensures OneRoomKey(r.nets[j]) ==> Converged(cipher, r.nets[j])
  {
    hide Inv, DutyInv, PoliteInv, Next, Polite, Quiescent, SentRoomKey, NoneBounced, OneRoomKey, KnowsKey;
    var net := r.nets[j];
    ReachesInv(cipher, r, j);
    ReachesDuty(cipher, r, j);
    ReachesPolite(cipher, r, j);
    forall y | y in net.node
      ensures GotRoomKey(net, y) && net.node[y].c.store.room.Some?
    {
      if y != 1 {
        PoliteRoomKey(cipher, net, y);
      }
      HasRoomKeyIff(cipher, net, y);
    }
    PoliteNeverBounces(net);
    KeysConvergedIff(cipher, net);
    if OneRoomKey(net) {
      RestingConvergedIff(cipher, net);
    }
  }

  lemma PoliteNeverBounces(net: Net)
    requires PoliteInv(net)
    ensures NoneBounced(net)
  {
  }
}
