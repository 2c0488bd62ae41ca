/**
 * The messages of the whole system against what a connection can carry. The clients of module World take
 * what the server hands them and the server takes what they send: as bytes, that is so exactly if the
 * messages fit their frames. Those of the key exchange itself always do.
 */
module WorldWire {
  import opened Messages
  import opened Server
  import opened Cipher
  import opened Gossip
  import opened GossipTokens
  import opened GossipAuth
  import opened GossipConvergence
  import opened EndToEnd
  import opened ServerWire
  import opened Session
  import opened World
  import opened WorldReplica

  /** The message hands out an id, an unnamed newcomer, a key or a room key. */
  predicate IsExchange(m: AppMessage) {
    || m.AssignId? || m.KeyOffer? || m.PeerKey? || m.RoomKeyOffer? || m.RoomKey?
    || (m.UserJoined? && m.nickname == [])
  }

  lemma SentExchangeFits(cipher: Cipher, net: Net, x: nat, m: AppMessage)
    requires Lawful(cipher) && AuthInv(cipher, net) && x in net.node && IsExchange(m)
    requires UpOk(cipher, SecretsOf(net), RoomKeys(net), x, m)
    ensures Fits(m)
  {
    hide NodeOk, SealedFor, Target;
    if m.RoomKeyOffer? {
      SealedRoomKeySize(cipher, net, x, Target(m), m.chat.text);
    } else {
      assert |cipher.publicOf(SecretsOf(net)[x])| == KEY_SIZE;
    }
  }

  lemma HandedExchangeFits(cipher: Cipher, net: Net, x: nat, m: AppMessage)
    requires Lawful(cipher) && AuthInv(cipher, net) && x in net.node && IsExchange(m)
    requires DownOk(cipher, SecretsOf(net), RoomKeys(net), x, m)
    ensures Fits(m)
  {
    hide NodeOk, SealedFor;
    if m.RoomKey? {
      SealedRoomKeySize(cipher, net, m.fromId, x, m.text);
    } else if m.PeerKey? {
      assert |cipher.publicOf(SecretsOf(net)[m.fromId])| == KEY_SIZE;
    }
  }

  /** In every run of the whole system every message of the key exchange, sent or handed out, fits its frame. */
  lemma ExchangeAlwaysFits(cipher: Cipher, h: Chronicle, j: nat, x: nat)
    requires Lawful(cipher) && IsChronicle(cipher, h) && j < |h.run.nets| && x in h.run.nets[j].node
    ensures var n := h.run.nets[j].node[x];
            && (forall k :: 0 <= k < |n.up| && IsExchange(n.up[k]) ==> Fits(n.up[k]))
            && (forall k :: 0 <= k < |n.down| && IsExchange(n.down[k]) ==> Fits(n.down[k]))
  {
    hide WorldFollows, Coupled, Fits, IsExchange, UpOk, DownOk, Next;
    StaysCoupled(cipher, h, j);
    var net := h.run.nets[j];
    var n := net.node[x];
    assert NodeOk(cipher, SecretsOf(net), RoomKeys(net), x, n);
    forall k | 0 <= k < |n.up| && IsExchange(n.up[k])
      ensures Fits(n.up[k])
    {
      SentExchangeFits(cipher, net, x, n.up[k]);
    }
    forall k | 0 <= k < |n.down| && IsExchange(n.down[k])
      ensures Fits(n.down[k])
    {
      HandedExchangeFits(cipher, net, x, n.down[k]);
    }
  }

  /** What the server has handed a client arrives at it as it is if and only if all of it fits. */
  lemma DownArrivesIff(cipher: Cipher, h: Chronicle, j: nat, x: nat)
    requires Lawful(cipher) && IsChronicle(cipher, h) && j < |h.run.nets| && x in h.run.nets[j].node
    ensures var down := h.run.nets[j].node[x].down;
            AllWellFormed(down) && (Incomings(Session.Stream(down)) == AsReceived(down) <==> AllFit(down))
  {
    hide WorldFollows, Inv, AllWellFormed, AllFit, Incomings, Orderly;
    StaysOrderly(cipher, h, j);
    var s := h.servers[j];
    var r := ServerRunOf(cipher, h, j);
    var down := h.run.nets[j].node[x].down;
    assert s.outbox[s.reg.fdById[x]] == down;
    assert down[..|down|] == down;
    HandedArriveIff(r, |r.events|, s.reg.fdById[x], |down|);
  }

  /** What a client has sent and the server has not handled arrives there as it is if and only if all of it fits. */
  lemma UpArrivesIff(cipher: Cipher, h: Chronicle, j: nat, x: nat)
    requires Lawful(cipher) && IsChronicle(cipher, h) && j < |h.run.nets| && x in h.run.nets[j].node
    ensures var up := h.run.nets[j].node[x].up;
            AllWellFormed(up) && (Incomings(Session.Stream(up)) == AsReceived(up) <==> AllFit(up))
  {
    hide WorldFollows, Coupled, UpOk, DownOk, Next, WellFormed, AllFit, Incomings;
    StaysCoupled(cipher, h, j);
    var net := h.run.nets[j];
    var up := net.node[x].up;
    assert NodeOk(cipher, SecretsOf(net), RoomKeys(net), x, net.node[x]);
    forall k | 0 <= k < |up|
      ensures WellFormed(up[k])
    {
      OffersFit(cipher, net, x, up[k]);
    }
    ArriveIff(up);
  }
}
