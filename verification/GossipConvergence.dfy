/** What the key exchange achieves, over every run and every interleaving of the clients' threads. */
module GossipConvergence {
  import opened Bytes
  import opened Messages
  import opened Cipher
  import opened Client
  import opened Gossip
  import opened GossipTokens
  import opened GossipPairs
  import opened GossipAuth
  import opened GossipLearning

  ghost predicate JoinInv(net: Net) {
    forall x, y :: x in net.node && y in net.node && x < y ==> Announced(net.node[x].down, y)
  }

  ghost predicate Inv(cipher: Cipher, net: Net) {
    && AuthInv(cipher, net)
    && PairsInv(net)
    && AllKnow(net)
    && JoinInv(net)
  }

  /** What holds besides as long as no send has failed. */
  ghost predicate DutyInv(net: Net) {
    && (forall x :: x in net.node ==> OfferInv(net.node[x]))
    && CreatorInv(net)
  }

  ghost predicate AllKnow(net: Net) {
    forall x :: x in net.node ==> KnowInv(x, net.node[x])
  }

  lemma AnnouncedGrows(ms: seq<AppMessage>, ms': seq<AppMessage>, p: nat)
    requires ms <= ms' && Announced(ms, p)
    ensures Announced(ms', p)
  {
    var k :| 0 <= k < |ms| && ms[k].UserJoined? && ms[k].id == p;
    assert ms'[k] == ms[k];
  }

  /** Nothing comes from a client that is not there. */
  lemma {:induction false} NoStrangers(cipher: Cipher, secrets: Secrets, keys: set<seq<Byte>>, y: nat, ms: seq<AppMessage>, p: nat)
    requires p !in secrets && forall i :: 0 <= i < |ms| ==> DownOk(cipher, secrets, keys, y, ms[i])
    ensures Tokens(ms, p) == []
    decreases |ms|
  {
    if ms != [] {
      NoStrangers(cipher, secrets, keys, y, ms[..|ms| - 1], p);
      assert DownOk(cipher, secrets, keys, y, ms[|ms| - 1]);
    }
  }

  lemma StrangersAreSilent(cipher: Cipher, net: Net, y: nat, p: nat)
    requires AuthInv(cipher, net) && y in net.node && p !in net.node
    ensures Tokens(net.node[y].down, p) == []
  {
    assert NodeOk(cipher, SecretsOf(net), RoomKeys(net), y, net.node[y]);
    NoStrangers(cipher, SecretsOf(net), RoomKeys(net), y, net.node[y].down, p);
  }

  // ----- every step keeps the invariant -----

  lemma MoverKnows(cipher: Cipher, net: Net, a: Action)
    requires Lawful(cipher) && AuthInv(cipher, net) && IsLocal(a) && a.x in net.node
    requires KnowInv(a.x, net.node[a.x]) && CanMove(net.node[a.x], a)
    ensures KnowInv(a.x, Moved(cipher, net.node[a.x], a))
  {
    RoomKeysHaveSize(cipher, net);
    assert NodeOk(cipher, SecretsOf(net), RoomKeys(net), a.x, net.node[a.x]);
    MoveKeepsKnowledge(cipher, SecretsOf(net), RoomKeys(net), a.x, net.node[a.x], a);
  }

  lemma OthersStillKnow(cipher: Cipher, net: Net, a: Action, net': Net)
    requires AllKnow(net) && IsLocal(a) && MovesTo(cipher, net, a, net') && KnowInv(a.x, Moved(cipher, net.node[a.x], a))
    ensures AllKnow(net')
  {
    forall x | x in net'.node
      ensures KnowInv(x, net'.node[x])
    {
      if x != a.x {
        assert KnowInv(x, net.node[x]);
      }
    }
  }

  lemma MoveKeepsJoinInv(cipher: Cipher, net: Net, a: Action, net': Net)
    requires JoinInv(net) && IsLocal(a) && MovesTo(cipher, net, a, net')
    ensures JoinInv(net')
  {
    MoveKeepsIdentity(cipher, net.node[a.x], a);
  }

  lemma MoverIsSane(cipher: Cipher, net: Net, x: nat)
    requires AuthInv(cipher, net) && x in net.node
    ensures SanePeers(net.node[x], x) && 1 in net.node
  {
    assert NodeOk(cipher, SecretsOf(net), RoomKeys(net), x, net.node[x]);
  }

  lemma MoveKeepsInv(cipher: Cipher, net: Net, a: Action, net': Net)
    requires Lawful(cipher) && Inv(cipher, net) && IsLocal(a) && MovesTo(cipher, net, a, net')
    ensures Inv(cipher, net')
  {
    assert AuthInv(cipher, net') by {
      MoveKeepsAuth(cipher, net, a, net');
    }
    assert PairsInv(net') by {
      MoverIsSane(cipher, net, a.x);
      MoveKeepsPairs(cipher, net, a, net');
    }
    MoverKnows(cipher, net, a);
    OthersStillKnow(cipher, net, a, net');
    MoveKeepsJoinInv(cipher, net, a, net');
  }

  lemma ServeKeepsInv(cipher: Cipher, net: Net, z: nat, net': Net)
    requires Inv(cipher, net) && ServesTo(net, z, net')
    ensures Inv(cipher, net')
  {
    ServeKeepsAuth(cipher, net, z, net');
    ServeKeepsPairs(net, z, net');
    forall x | x in net'.node
      ensures KnowInv(x, net'.node[x])
    {
      assert Answered(net, z, x, net'.node[x]);
      ArrivalKeepsKnowledge(x, net.node[x], net'.node[x]);
    }
    forall x, y | x in net'.node && y in net'.node && x < y
      ensures Announced(net'.node[x].down, y)
    {
      assert Answered(net, z, x, net'.node[x]);
      AnnouncedGrows(net.node[x].down, net'.node[x].down, y);
    }
  }

  lemma JoinKeepsCreator(cipher: Cipher, net: Net, secret: seq<Byte>, random: seq<Byte>, saved: Option<seq<Byte>>, net': Net)
    requires Shape(net) && CreatorInv(net) && JoinsTo(cipher, net, secret, random, saved, net')
    ensures CreatorInv(net')
  {
    if net.size >= 1 {
      assert 1 in net.node;
      assert TakenMessages(net'.node[1]) == TakenMessages(net.node[1]);
      forall p: nat | Heard(net'.node[1], p)
        ensures CreatorServes(net', p)
      {
        assert CreatorServes(net, p);
        JoinKeepsStream(cipher, net, secret, random, saved, net', 1, p);
      }
    }
  }

  lemma JoinKeepsJoinInv(cipher: Cipher, net: Net, secret: seq<Byte>, random: seq<Byte>, saved: Option<seq<Byte>>, net': Net)
    requires Shape(net) && JoinInv(net) && JoinsTo(cipher, net, secret, random, saved, net')
    ensures JoinInv(net')
  {
    var newcomer := net.size + 1;
    forall x, y | x in net'.node && y in net'.node && x < y
      ensures Announced(net'.node[x].down, y)
    {
      var before := net.node[x].down;
      if y == newcomer {
        assert net'.node[x].down[|before|] == UserJoined(newcomer, []);
      } else {
        AnnouncedGrows(before, net'.node[x].down, y);
      }
    }
  }

  lemma JoinKeepsAllKnow(cipher: Cipher, net: Net, secret: seq<Byte>, random: seq<Byte>, saved: Option<seq<Byte>>, net': Net)
    requires Shape(net) && AllKnow(net) && JoinsTo(cipher, net, secret, random, saved, net')
    ensures AllKnow(net')
  {
    forall x | x in net'.node
      ensures KnowInv(x, net'.node[x])
    {
      if x in net.node {
        ArrivalKeepsKnowledge(x, net.node[x], net'.node[x]);
      } else {
        assert TakenMessages(net'.node[x]) == [];
      }
    }
  }

  lemma JoinKeepsInv(cipher: Cipher, net: Net, secret: seq<Byte>, random: seq<Byte>, saved: Option<seq<Byte>>, net': Net)
    requires Inv(cipher, net) && JoinsTo(cipher, net, secret, random, saved, net')
    ensures Inv(cipher, net')
  {
    assert AuthInv(cipher, net') by {
      JoinKeepsAuth(cipher, net, secret, random, saved, net');
    }
    assert PairsInv(net') by {
      forall y | y in net.node
        ensures Tokens(net.node[y].down, net.size + 1) == []
      {
        StrangersAreSilent(cipher, net, y, net.size + 1);
      }
      JoinKeepsPairs(cipher, net, secret, random, saved, net');
    }
    JoinKeepsJoinInv(cipher, net, secret, random, saved, net');
    JoinKeepsAllKnow(cipher, net, secret, random, saved, net');
  }

  lemma StepKeepsInv(cipher: Cipher, net: Net, a: Action, net': Net)
    requires Lawful(cipher) && Inv(cipher, net) && Next(cipher, net, a, net')
    ensures Inv(cipher, net')
  {
    match a {
      case Joins(secret, random, saved) => JoinKeepsInv(cipher, net, secret, random, saved, net');
      case Serves(z) => ServeKeepsInv(cipher, net, z, net');
      case _ => MoveKeepsInv(cipher, net, a, net');
    }
  }

  lemma {:induction false} ReachesInv(cipher: Cipher, r: Run, j: nat)
    requires Lawful(cipher) && IsRun(cipher, r) && j < |r.nets|
    ensures Inv(cipher, r.nets[j])
  {
    if j > 0 {
      ReachesInv(cipher, r, j - 1);
      StepKeepsInv(cipher, r.nets[j - 1], r.actions[j - 1], r.nets[j]);
    }
  }

  // ----- and, unless a send fails, the duties -----

  lemma MoveKeepsDuty(cipher: Cipher, net: Net, a: Action, net': Net)
    requires Lawful(cipher) && Inv(cipher, net) && DutyInv(net) && IsLocal(a) && !SendFails(a) && MovesTo(cipher, net, a, net')
    ensures DutyInv(net')
  {
    hide Moved, CanMove, KnowInv, OfferInv, NodeOk, PairsInv, JoinInv;
    MoverIsSane(cipher, net, a.x);
    assert KnowInv(1, net.node[1]);
    MoveKeepsCreator(cipher, net, a, net');
    assert NodeOk(cipher, SecretsOf(net), RoomKeys(net), a.x, net.node[a.x]);
    MoveKeepsOffers(cipher, SecretsOf(net), RoomKeys(net), a.x, net.node[a.x], a);
  }

  lemma ServeKeepsDuty(cipher: Cipher, net: Net, z: nat, net': Net)
    requires Inv(cipher, net) && DutyInv(net) && ServesTo(net, z, net')
    ensures DutyInv(net')
  {
    hide OfferInv, KnowInv, NodeOk, PairsInv, JoinInv, CreatorInv, Answers;
    ServeKeepsCreator(cipher, net, z, net');
    forall x | x in net'.node
      ensures OfferInv(net'.node[x])
    {
      assert Answered(net, z, x, net'.node[x]) && KnowInv(x, net.node[x]);
      ArrivalKeepsKnowledge(x, net.node[x], net'.node[x]);
    }
  }

  lemma NewNodeOwesNothing(cipher: Cipher, x: nat, secret: seq<Byte>, random: seq<Byte>, saved: Option<seq<Byte>>)
    ensures OfferInv(NewNode(cipher, x, secret, random, saved))
  {
    assert TakenMessages(NewNode(cipher, x, secret, random, saved)) == [];
  }

  lemma JoinKeepsDuty(cipher: Cipher, net: Net, secret: seq<Byte>, random: seq<Byte>, saved: Option<seq<Byte>>, net': Net)
    requires Inv(cipher, net) && DutyInv(net) && JoinsTo(cipher, net, secret, random, saved, net')
    ensures DutyInv(net')
  {
    hide OfferInv, KnowInv, NodeOk, PairsInv, JoinInv, CreatorInv, NewNode;
    JoinKeepsCreator(cipher, net, secret, random, saved, net');
    NewNodeOwesNothing(cipher, net.size + 1, secret, random, saved);
    forall x | x in net'.node
      ensures OfferInv(net'.node[x])
    {
      if x in net.node {
        assert KnowInv(x, net.node[x]);
        ArrivalKeepsKnowledge(x, net.node[x], net'.node[x]);
      }
    }
  }

  lemma StartsDuty()
    ensures DutyInv(EmptyNet())
  {
  }

  lemma {:induction false} ReachesDuty(cipher: Cipher, r: Run, j: nat)
    requires Lawful(cipher) && IsRun(cipher, r) && Faultless(r, j)
    ensures DutyInv(r.nets[j])
  {
    hide Inv, DutyInv, JoinsTo, ServesTo, MovesTo;
    if j == 0 {
      StartsDuty();
    } else {
      ReachesDuty(cipher, r, j - 1);
      ReachesInv(cipher, r, j - 1);
      var net, a, net' := r.nets[j - 1], r.actions[j - 1], r.nets[j];
      assert Next(cipher, net, a, net');
      match a {
        case Joins(secret, random, saved) => JoinKeepsDuty(cipher, net, secret, random, saved, net');
        case Serves(z) => ServeKeepsDuty(cipher, net, z, net');
        case _ => MoveKeepsDuty(cipher, net, a, net');
      }
    }
  }

  // ----- what holds when nothing is under way -----

  /** At rest, what x sent to y is what y has taken from x. */
  lemma RestingStream(net: Net, x: nat, y: nat)
    requires x in net.node && y in net.node && Quiescent(net)
    ensures Stream(net, x, y) == Tokens(TakenMessages(net.node[y]), x)
  {
    assert AtRest(net.node[x]) && AtRest(net.node[y]);
    assert TakenMessages(net.node[y]) == net.node[y].down;
  }

  /** At rest, y knows x exactly if x has marked y and the offer did not bounce. */
  lemma RestingOffer(cipher: Cipher, net: Net, x: nat, y: nat)
    requires Inv(cipher, net) && Quiescent(net) && x in net.node && y in net.node
    ensures x in net.node[y].c.store.peers <==> y in net.node[x].c.offered && (x, y) !in net.bounced
  {
    hide AuthInv, CreatorInv, JoinInv, Announced, HasRoomSource, Tokens, Count, Stream;
    RestingStream(net, x, y);
    assert SenderInv(net, x) && OneOffer(net, x, y);
    assert KnowInv(y, net.node[y]) && AtRest(net.node[x]);
    assert x in net.node[y].c.store.peers <==> Heard(net.node[y], x);
    assert Count(Stream(net, x, y)) > 0 <==> K in Stream(net, x, y);
  }

  /** At rest, if no send has failed, everyone has marked every client announced to it or whose key it holds. */
  lemma RestingMarks(cipher: Cipher, net: Net, x: nat, y: nat)
    requires Inv(cipher, net) && DutyInv(net) && Quiescent(net) && x in net.node && y in net.node
    ensures x < y || y in net.node[x].c.store.peers ==> y in net.node[x].c.offered
  {
    hide AuthInv, PairsInv, CreatorInv, Announced, Heard, HasRoomSource;
    var n := net.node[x];
    assert KnowInv(x, n) && OfferInv(n) && AtRest(n);
    assert TakenMessages(n) == n.down;
    assert y in n.c.store.peers <==> Heard(n, y);
  }

  /**
   * Key exchange, exactly: when nothing is under way, two clients hold each other's public key if and
   * only if the offer of the earlier one was not bounced before the later one had connected.
   */
  lemma RestingPairIff(cipher: Cipher, net: Net, x: nat, y: nat)
    requires Inv(cipher, net) && DutyInv(net) && Quiescent(net) && x in net.node && y in net.node && x < y
    ensures x in net.node[y].c.store.peers && y in net.node[x].c.store.peers <==> (x, y) !in net.bounced
    ensures x in net.node[y].c.store.peers <==> (x, y) !in net.bounced
  {
    RestingMarks(cipher, net, x, y);
    RestingOffer(cipher, net, x, y);
    RestingMarks(cipher, net, y, x);
    RestingOffer(cipher, net, y, x);
    assert (y, x) !in net.bounced;
  }

  /**
   * Room key, exactly: when nothing is under way, a client holds a room key if and only if it is the
   * creator, had saved one, or some client sent it one in order and that client's own key had not
   * bounced; and the key it holds is one that someone brought along.
   */
  lemma RestingRoomKeyIff(cipher: Cipher, net: Net, y: nat)
    requires Inv(cipher, net) && Quiescent(net) && y in net.node
    ensures net.node[y].c.store.room.Some? <==> GotRoomKey(net, y)
    ensures net.node[y].c.store.room.Some? ==> net.node[y].c.store.room.value in RoomKeys(net)
  {
    hide PairsInv, CreatorInv, JoinInv, Announced, Heard, Tokens, KeyThenRoom, NodeOk, TakenMessages;
    var n := net.node[y];
    HeldRoomKey(cipher, net, y);
    assert KnowInv(y, n) && AtRest(n) && n.taken >= 1;
    forall x: nat
      ensures KeyThenRoom(Tokens(TakenMessages(n), x)) <==> (x, y) in net.inOrder && (x, y) !in net.bounced
    {
      RestingOrder(cipher, net, x, y);
    }
  }

  lemma HeldRoomKey(cipher: Cipher, net: Net, y: nat)
    requires AuthInv(cipher, net) && y in net.node
    ensures net.node[y].c.store.room.Some? ==> net.node[y].c.store.room.value in RoomKeys(net)
    ensures |net.node[y].down| >= 1
  {
    assert NodeOk(cipher, SecretsOf(net), RoomKeys(net), y, net.node[y]);
  }

  /** At rest, the order recorded for x and y is the order in which y has taken what x sent. */
  lemma RestingOrder(cipher: Cipher, net: Net, x: nat, y: nat)
    requires AuthInv(cipher, net) && PairsInv(net) && Quiescent(net) && y in net.node
    ensures KeyThenRoom(Tokens(TakenMessages(net.node[y]), x)) <==> (x, y) in net.inOrder && (x, y) !in net.bounced
  {
    if x in net.node {
      RestingStream(net, x, y);
      assert SenderInv(net, x) && OrderRecorded(net, x, y);
    } else {
      StrangersAreSilent(cipher, net, y, x);
      assert AtRest(net.node[y]) && TakenMessages(net.node[y]) == net.node[y].down;
    }
  }

  /** Throughout every run, a room key is one that someone brought along, and a peer key is that peer's own. */
  lemma KeysAreGenuine(cipher: Cipher, r: Run, j: nat, x: nat)
    requires Lawful(cipher) && IsRun(cipher, r) && j < |r.nets| && x in r.nets[j].node
    ensures r.nets[j].node[x].c.store.room.Some? ==> r.nets[j].node[x].c.store.room.value in RoomKeys(r.nets[j])
    ensures forall p :: p in r.nets[j].node[x].c.store.peers ==>
              p in r.nets[j].node && r.nets[j].node[x].c.store.peers[p] == cipher.publicOf(r.nets[j].node[p].c.store.secret)
  {
    ReachesInv(cipher, r, j);
    assert NodeOk(cipher, SecretsOf(r.nets[j]), RoomKeys(r.nets[j]), x, r.nets[j].node[x]);
  }

  // ----- one room key -----

  /** Whoever brought a room key along brought the creator's. */
  ghost predicate OneRoomKey(net: Net) {
    RoomKeys(net) <= {TheRoomKey(net)}
  }

  /** Nobody holds a room key other than the creator's. */
  ghost predicate OneKeyHeld(net: Net) {
    forall x :: x in net.node ==> net.node[x].c.store.room.None? || net.node[x].c.store.room.value == TheRoomKey(net)
  }

  /** A step brings no key but a newcomer's, and changes none. */
  lemma StepKeepsBrought(cipher: Cipher, net: Net, a: Action, net': Net)
    requires Lawful(cipher) && AuthInv(cipher, net) && Next(cipher, net, a, net')
    ensures RoomKeys(net) <= RoomKeys(net') && (1 in net.node ==> 1 in net'.node && TheRoomKey(net') == TheRoomKey(net))
    ensures forall x :: x in net.node ==> x in net'.node && net'.node[x].saved == net.node[x].saved
    ensures forall x :: x in net'.node && x !in net.node ==> net'.node[x].c.store.room == net'.node[x].saved && net'.node[x].taken == 0
  {
    hide Moved, CanMove, NodeOk, Answers;
    if a.Joins? {
      SecretsExtend(cipher, net, a.secret, a.random, a.saved, net');
    } else if a.Serves? {
      assert forall i :: i in net.node ==> Answered(net, a.x, i, net'.node[i]);
      SameKeysBrought(net, net');
    } else {
      MoveKeepsIdentities(cipher, net, a, net');
      SameKeysBrought(net, net');
    }
  }

  lemma {:induction false} BroughtStays(cipher: Cipher, r: Run, i: nat, j: nat)
    requires Lawful(cipher) && IsRun(cipher, r) && i <= j < |r.nets|
    ensures RoomKeys(r.nets[i]) <= RoomKeys(r.nets[j])
    ensures 1 in r.nets[i].node ==> 1 in r.nets[j].node && TheRoomKey(r.nets[j]) == TheRoomKey(r.nets[i])
    decreases j - i
  {
    hide Next, AuthInv, PairsInv, AllKnow, JoinInv, RoomKeys, TheRoomKey;
    if i < j {
      BroughtStays(cipher, r, i, j - 1);
      ReachesInv(cipher, r, j - 1);
      assert Next(cipher, r.nets[j - 1], r.actions[j - 1], r.nets[j]);
      StepKeepsBrought(cipher, r.nets[j - 1], r.actions[j - 1], r.nets[j]);
    }
  }

  /** A client held the room key it had saved when it connected. */
  lemma {:induction false} HeldWhatItSaved(cipher: Cipher, r: Run, j: nat, x: nat) returns (i: nat)
    requires Lawful(cipher) && IsRun(cipher, r) && j < |r.nets| && x in r.nets[j].node
    ensures i <= j && x in r.nets[i].node && r.nets[i].node[x].c.store.room == r.nets[j].node[x].saved
    decreases j
  {
    hide Next, AuthInv, PairsInv, AllKnow, JoinInv, RoomKeys, TheRoomKey;
    ReachesInv(cipher, r, j - 1);
    assert Next(cipher, r.nets[j - 1], r.actions[j - 1], r.nets[j]);
    StepKeepsBrought(cipher, r.nets[j - 1], r.actions[j - 1], r.nets[j]);
    if x in r.nets[j - 1].node {
      i := HeldWhatItSaved(cipher, r, j - 1, x);
    } else {
      i := j;
    }
  }

  lemma CreatorIsThere(cipher: Cipher, r: Run, j: nat, x: nat)
    requires Lawful(cipher) && IsRun(cipher, r) && j < |r.nets| && x in r.nets[j].node
    ensures 1 in r.nets[j].node
  {
    hide Next;
    ReachesInv(cipher, r, j);
  }

  lemma OthersBringTheirs(net: Net)
    requires !OneRoomKey(net) && 1 in net.node
    ensures exists x :: x in net.node && net.node[x].saved.Some? && net.node[x].saved.value != TheRoomKey(net)
  {
    var key :| key in RoomKeys(net) && key != TheRoomKey(net);
    var x :| x in net.node && Brings(x, net.node[x]).Some? && Brings(x, net.node[x]).value == key;
    assert net.node[x].saved.Some?;
  }

  /**
   * Up to any point of a run nobody has held a room key other than the creator's if and only if whoever
   * had saved one had saved the creator's.
   */
  lemma OneRoomKeyIff(cipher: Cipher, r: Run, j: nat)
    requires Lawful(cipher) && IsRun(cipher, r) && j < |r.nets|
    ensures (forall i :: 0 <= i <= j ==> OneKeyHeld(r.nets[i])) <==> OneRoomKey(r.nets[j])
  {
    hide Next, Inv, RoomKeys, TheRoomKey, IsRun;
    if OneRoomKey(r.nets[j]) {
      forall i | 0 <= i <= j
        ensures OneKeyHeld(r.nets[i])
      {
        forall x | x in r.nets[i].node
          ensures r.nets[i].node[x].c.store.room.None? || r.nets[i].node[x].c.store.room.value == TheRoomKey(r.nets[i])
        {
          KeysAreGenuine(cipher, r, i, x);
          CreatorIsThere(cipher, r, i, x);
          BroughtStays(cipher, r, i, j);
        }
      }
    } else {
      KeysNeedClients(r.nets[j]);
      var y :| y in r.nets[j].node;
      CreatorIsThere(cipher, r, j, y);
      OthersBringTheirs(r.nets[j]);
      var x :| x in r.nets[j].node && r.nets[j].node[x].saved.Some? && r.nets[j].node[x].saved.value != TheRoomKey(r.nets[j]);
      var i := HeldWhatItSaved(cipher, r, j, x);
      CreatorIsThere(cipher, r, i, x);
      BroughtStays(cipher, r, i, j);
      assert !OneKeyHeld(r.nets[i]);
    }
  }

  lemma KeysNeedClients(net: Net)
    requires !OneRoomKey(net)
    ensures exists x :: x in net.node
  {
    var key :| key in RoomKeys(net) && key != TheRoomKey(net);
  }

  ghost predicate HasRoomKey(net: Net, x: nat)
    requires x in net.node
  {
    net.node[x].c.store.room == Some(TheRoomKey(net))
  }

  ghost predicate KnowsKey(cipher: Cipher, net: Net, x: nat, y: nat)
    requires x in net.node && y in net.node
  {
    y in net.node[x].c.store.peers && net.node[x].c.store.peers[y] == cipher.publicOf(net.node[y].c.store.secret)
  }

  /** Everyone knows everyone's public key. */
  ghost predicate AllExchanged(cipher: Cipher, net: Net) {
    forall x, y :: x in net.node && y in net.node && x != y ==> KnowsKey(cipher, net, x, y)
  }

  /** Everyone knows everyone's public key, and everyone has the room key. */
  ghost predicate Converged(cipher: Cipher, net: Net) {
    AllExchanged(cipher, net) && forall x :: x in net.node ==> HasRoomKey(net, x)
  }

  /** No offer between connected clients has bounced. */
  ghost predicate NoneBounced(net: Net) {
    forall x, y :: x in net.node && y in net.node ==> (x, y) !in net.bounced
  }

  /** Someone sent y the room key, and not ahead of its own public key. */
  ghost predicate SentRoomKey(net: Net, y: nat) {
    exists x: nat :: (x, y) in net.inOrder && (x, y) !in net.bounced
  }

  /** Client y created the room, had saved a room key, or was sent one in order. */
  ghost predicate GotRoomKey(net: Net, y: nat)
    requires y in net.node
  {
    y == 1 || net.node[y].saved.Some? || SentRoomKey(net, y)
  }

  lemma KeysConvergedIff(cipher: Cipher, net: Net)
    requires Inv(cipher, net) && DutyInv(net) && Quiescent(net)
    ensures AllExchanged(cipher, net) <==> NoneBounced(net)
  {
    hide AuthInv, SenderInv, AllKnow, DutyInv, JoinInv, Quiescent, KnowsKey;
    forall x, y | x in net.node && y in net.node && x < y
      ensures KnowsKey(cipher, net, x, y) && KnowsKey(cipher, net, y, x) <==> (x, y) !in net.bounced
    {
      PairConvergedIff(cipher, net, x, y);
    }
    assert forall x, y: nat :: (x, y) in net.bounced ==> x < y;
  }

  lemma PairConvergedIff(cipher: Cipher, net: Net, x: nat, y: nat)
    requires Inv(cipher, net) && DutyInv(net) && Quiescent(net) && x in net.node && y in net.node && x < y
    ensures KnowsKey(cipher, net, x, y) && KnowsKey(cipher, net, y, x) <==> (x, y) !in net.bounced
  {
    RestingPairIff(cipher, net, x, y);
    KeysAreTrue(cipher, net, x, y);
    KeysAreTrue(cipher, net, y, x);
    hide Inv, Quiescent;
  }

  /** A peer key a client holds is that peer's public key. */
  lemma KeysAreTrue(cipher: Cipher, net: Net, x: nat, y: nat)
    requires AuthInv(cipher, net) && x in net.node && y in net.node
    ensures y in net.node[x].c.store.peers <==> KnowsKey(cipher, net, x, y)
  {
    assert NodeOk(cipher, SecretsOf(net), RoomKeys(net), x, net.node[x]);
  }

  /**
   * When nothing is under way and there is one room key, the exchange has converged if and only if no
   * offer to a connected client bounced and every client but the creator had saved the room key or was
   * sent it, by someone, in order.
   */
  lemma RestingConvergedIff(cipher: Cipher, net: Net)
    requires Inv(cipher, net) && DutyInv(net) && Quiescent(net) && OneRoomKey(net)
    ensures Converged(cipher, net) <==> NoneBounced(net) && forall y :: y in net.node ==> GotRoomKey(net, y)
  {
    hide Inv, DutyInv, Quiescent, KnowsKey, NoneBounced, HasRoomKey, GotRoomKey, OneRoomKey;
    KeysConvergedIff(cipher, net);
    forall y | y in net.node
      ensures HasRoomKey(net, y) <==> GotRoomKey(net, y)
    {
      HasRoomKeyIff(cipher, net, y);
    }
  }

  lemma HasRoomKeyIff(cipher: Cipher, net: Net, y: nat)
    requires Inv(cipher, net) && Quiescent(net) && y in net.node
    ensures net.node[y].c.store.room.Some? <==> GotRoomKey(net, y)
    ensures OneRoomKey(net) ==> (HasRoomKey(net, y) <==> GotRoomKey(net, y))
  {
    hide Inv, Quiescent;
    RestingRoomKeyIff(cipher, net, y);
  }

  // ----- in every run -----

  /**
   * Whenever a run is at rest, whatever sends have failed in it, client y holds the key of client x if
   * and only if x has marked y and the offer did not bounce.
   */
  lemma KeyArrivedIff(cipher: Cipher, r: Run, j: nat, x: nat, y: nat)
    requires Lawful(cipher) && IsRun(cipher, r) && j < |r.nets| && Quiescent(r.nets[j])
    requires x in r.nets[j].node && y in r.nets[j].node
    ensures KnowsKey(cipher, r.nets[j], y, x) <==> y in r.nets[j].node[x].c.offered && (x, y) !in r.nets[j].bounced
  {
    ReachesInv(cipher, r, j);
    RestingOffer(cipher, r.nets[j], x, y);
    KeysAreTrue(cipher, r.nets[j], y, x);
    hide Inv, IsRun, Quiescent;
  }

  /**
   * And client y has a room key if and only if it created it, had saved one, or someone sent it one behind
   * its own public key; if there is only one room key, that is the one it has.
   */
  lemma RoomKeyIff(cipher: Cipher, r: Run, j: nat, y: nat)
    requires Lawful(cipher) && IsRun(cipher, r) && j < |r.nets| && Quiescent(r.nets[j]) && y in r.nets[j].node
    ensures r.nets[j].node[y].c.store.room.Some? <==> GotRoomKey(r.nets[j], y)
    ensures OneRoomKey(r.nets[j]) ==> (HasRoomKey(r.nets[j], y) <==> GotRoomKey(r.nets[j], y))
  {
    hide Inv, IsRun, Quiescent, HasRoomKey, GotRoomKey, OneRoomKey;
    ReachesInv(cipher, r, j);
    HasRoomKeyIff(cipher, r.nets[j], y);
  }

  /**
   * If no send has failed, two clients hold each other's keys if and only if the earlier one's offer did
   * not bounce.
   */
  lemma PairExchangedIff(cipher: Cipher, r: Run, j: nat, x: nat, y: nat)
    requires Lawful(cipher) && IsRun(cipher, r) && Faultless(r, j) && Quiescent(r.nets[j])
    requires x in r.nets[j].node && y in r.nets[j].node && x < y
    ensures KnowsKey(cipher, r.nets[j], x, y) && KnowsKey(cipher, r.nets[j], y, x) <==> (x, y) !in r.nets[j].bounced
  {
    hide Inv, DutyInv, Next, Quiescent, KnowsKey;
    ReachesInv(cipher, r, j);
    ReachesDuty(cipher, r, j);
    PairConvergedIff(cipher, r.nets[j], x, y);
  }

  /**
   * Everyone holds everyone's key if and only if no offer to a connected client bounced. And, if there is
   * only one room key, everyone holds that as well if and only if besides every client but the creator had
   * saved it or was sent it, by someone, in order.
   */
  lemma ConvergedIff(cipher: Cipher, r: Run, j: nat)
    requires Lawful(cipher) && IsRun(cipher, r) && Faultless(r, j) && Quiescent(r.nets[j])
    ensures AllExchanged(cipher, r.nets[j]) <==> NoneBounced(r.nets[j])
    ensures OneRoomKey(r.nets[j]) ==>
              (Converged(cipher, r.nets[j]) <==>
               NoneBounced(r.nets[j]) && forall y :: y in r.nets[j].node ==> GotRoomKey(r.nets[j], y))
  {
    hide Inv, DutyInv, Next, Quiescent, Converged, AllExchanged, NoneBounced, GotRoomKey, OneRoomKey;
    ReachesInv(cipher, r, j);
    ReachesDuty(cipher, r, j);
    KeysConvergedIff(cipher, r.nets[j]);
    if OneRoomKey(r.nets[j]) {
      RestingConvergedIff(cipher, r.nets[j]);
    }
  }
}
