/** How many messages the exchange can cost: one public key per ordered pair, and one room key for each answered. */
module GossipCounts {
  import opened Bytes
  import opened Messages
  import opened Cipher
  import opened Client
  import opened Gossip
  import opened GossipTokens
  import opened GossipPairs
  import opened GossipAuth
  import opened GossipLearning
  import opened GossipConvergence

  /** The room keys among the tokens ts. */
  function Rooms(ts: seq<Token>): (n: int)
    ensures n >= 0
  {
    CountAtMost(ts);
    |ts| - Count(ts)
  }

  lemma {:induction false} CountAtMost(ts: seq<Token>)
    ensures Count(ts) <= |ts|
    decreases |ts|
  {
    if ts != [] {
      CountAtMost(ts[..|ts| - 1]);
    }
  }

  /** The receive thread is handling y's public key and still has to send the room key. */
  predicate Hand(n: Node, y: nat) {
    RoomPhase(n.rx) && n.rx.peer == y
  }

  /**
   * Every room key client x has sent towards client y, and the one it is about to send, answers a public
   * key of y that x has taken.
   */
  ghost predicate RoomsPaid(net: Net, x: nat, y: nat)
    requires x in net.node
  {
    var n := net.node[x];
    Rooms(Stream(net, x, y)) + Bit(Hand(n, y)) <= Count(Tokens(TakenMessages(n), y))
  }

  ghost predicate AllPaid(net: Net) {
    forall x, y: nat :: x in net.node ==> RoomsPaid(net, x, y)
  }

  // ----- a client's own steps -----

  lemma RoomsAppend(ts: seq<Token>, token: seq<Token>)
    requires |token| <= 1
    ensures Rooms(ts + token) == Rooms(ts) + Bit(token == [R])
  {
    if |token| == 1 {
      assert token == [token[0]];
      CountAppend(ts, token[0]);
    } else {
      assert ts + token == ts;
    }
  }

  lemma KeysAppend(ts: seq<Token>, token: seq<Token>)
    requires |token| <= 1
    ensures Count(ts + token) == Count(ts) + Bit(token == [K])
  {
    if |token| == 1 {
      assert token == [token[0]];
      CountAppend(ts, token[0]);
    } else {
      assert ts + token == ts;
    }
  }

  /** What a step of client n adds to the messages taken from y. */
  function Gained(n: Node, a: Action, y: nat): seq<Token> {
    if (a.Takes? || a.Starts?) && n.taken < |n.down| then TokenOf(n.down[n.taken], y) else []
  }

  lemma MoveGains(cipher: Cipher, n: Node, a: Action, y: nat)
    requires IsLocal(a) && CanMove(n, a) && n.taken <= |n.down|
    ensures Tokens(TakenMessages(Moved(cipher, n, a)), y) == Tokens(TakenMessages(n), y) + Gained(n, a, y)
  {
    var n' := Moved(cipher, n, a);
    hide Tokens;
    if a.Takes? || a.Starts? {
      TakeExtends(n, n.down[n.taken], y);
      assert TakenMessages(n') == n.down[..n.taken + 1];
    } else {
      assert TakenMessages(n') == TakenMessages(n);
      assert Tokens(TakenMessages(n), y) + [] == Tokens(TakenMessages(n), y);
    }
  }

  /** A step of client n takes a room key in hand only for a public key it has just taken, and sends it once. */
  lemma MoveBalances(cipher: Cipher, n: Node, a: Action, x: nat, y: nat)
    requires IsLocal(a) && CanMove(n, a) && SanePeers(n, x)
    ensures var n', token := Moved(cipher, n, a), TokenOfPosted(PostedBy(n, a), y);
            && |token| <= 1 && |Gained(n, a, y)| <= 1
            && Bit(Hand(n', y)) + Bit(token == [R]) <= Bit(Hand(n, y)) + Bit(Gained(n, a, y) == [K])
  {
    hide Absorbed, RoomKeyFor, OfferMarked, WantsOffer;
    if a.Continues? && n.rx.PostingRoom? {
      TargetOfOffer(n.c.id, n.rx.peer, n.rx.sealed);
    }
  }

  lemma MoveKeepsPaid(cipher: Cipher, net: Net, a: Action, net': Net, x: nat, y: nat)
    requires AuthInv(cipher, net) && IsLocal(a) && MovesTo(cipher, net, a, net') && x in net.node && RoomsPaid(net, x, y)
    ensures RoomsPaid(net', x, y)
  {
    MoverIsSane(cipher, net, a.x);
    MoveIsLocal(cipher, net, a, net');
    LocalStreams(net, net', a.x, PostedBy(net.node[a.x], a), x, y);
    assert net.node[x].taken <= |net.node[x].down|;
    hide AuthInv, Moved, CanMove, PostedBy, Stream, Tokens, Rooms, Hand, TakenMessages;
    if x == a.x {
      MoveGains(cipher, net.node[x], a, y);
      MoveBalances(cipher, net.node[x], a, x, y);
      var n, n', token, got := net.node[x], net'.node[x], TokenOfPosted(PostedBy(net.node[x], a), y), Gained(net.node[x], a, y);
      RoomsAppend(Stream(net, x, y), token);
      KeysAppend(Tokens(TakenMessages(n), y), got);
    } else {
      assert net'.node[x] == net.node[x];
      assert Stream(net, x, y) + [] == Stream(net, x, y);
    }
  }

  // ----- serving and joining -----

  lemma SameTaken(n: Node, n': Node)
    requires n.taken <= |n.down| && n.down <= n'.down && n'.taken == n.taken
    ensures TakenMessages(n') == TakenMessages(n)
  {
  }

  lemma ServeKeepsPaid(cipher: Cipher, net: Net, z: nat, net': Net, x: nat, y: nat)
    requires AuthInv(cipher, net) && ServesTo(net, z, net') && x in net.node && RoomsPaid(net, x, y)
    ensures RoomsPaid(net', x, y)
  {
    hide NodeOk, Tokens, Stream, Answers;
    var m := net.node[z].up[0];
    assert Answered(net, z, x, net'.node[x]);
    SameTaken(net.node[x], net'.node[x]);
    ServedMessage(cipher, net, z);
    ServeMovesStream(net, z, net', x, y);
    var before, after := Stream(net, x, y), Stream(net', x, y);
    if before != after {
      assert before == [K] + after;
      assert before[1..] == after;
      CountHead(before);
    }
  }

  lemma JoinKeepsPaid(cipher: Cipher, net: Net, secret: seq<Byte>, random: seq<Byte>, saved: Option<seq<Byte>>, net': Net, x: nat, y: nat)
    requires AuthInv(cipher, net) && JoinsTo(cipher, net, secret, random, saved, net') && x in net'.node
    requires x in net.node ==> RoomsPaid(net, x, y)
    ensures RoomsPaid(net', x, y)
  {
    hide Stream, Tokens, NodeOk;
    JoinKeepsStream(cipher, net, secret, random, saved, net', x, y);
    if x in net.node {
      SameTaken(net.node[x], net'.node[x]);
    } else {
      NewcomerHasSentNothing(cipher, net, x, y);
      NothingSentIsPaid(net', x, y);
    }
  }

  lemma NewcomerHasSentNothing(cipher: Cipher, net: Net, x: nat, y: nat)
    requires AuthInv(cipher, net) && x !in net.node
    ensures Stream(net, x, y) == []
  {
    if y in net.node {
      StrangersAreSilent(cipher, net, y, x);
    }
  }

  lemma NothingSentIsPaid(net: Net, x: nat, y: nat)
    requires x in net.node && Stream(net, x, y) == [] && net.node[x].rx == Idle
    ensures RoomsPaid(net, x, y)
  {
    hide Stream, Tokens;
  }

  lemma StaysIn(cipher: Cipher, net: Net, a: Action, net': Net, x: nat)
    requires Next(cipher, net, a, net') && x in net'.node && !a.Joins?
    ensures x in net.node
  {
  }

  lemma StepKeepsPaid(cipher: Cipher, net: Net, a: Action, net': Net)
    requires Lawful(cipher) && AuthInv(cipher, net) && AllPaid(net) && Next(cipher, net, a, net')
    ensures AllPaid(net')
  {
    hide AuthInv, RoomsPaid, JoinsTo, ServesTo, MovesTo;
    forall x, y: nat | x in net'.node
      ensures RoomsPaid(net', x, y)
    {
      if !a.Joins? {
        StaysIn(cipher, net, a, net', x);
      }
      assert x in net.node ==> RoomsPaid(net, x, y);
      match a {
        case Joins(secret, random, saved) => JoinKeepsPaid(cipher, net, secret, random, saved, net', x, y);
        case Serves(z) => ServeKeepsPaid(cipher, net, z, net', x, y);
        case _ => MoveKeepsPaid(cipher, net, a, net', x, y);
      }
    }
  }

  lemma {:induction false} ReachesPaid(cipher: Cipher, r: Run, j: nat)
    requires Lawful(cipher) && IsRun(cipher, r) && j < |r.nets|
    ensures AllPaid(r.nets[j])
  {
    hide Next, RoomsPaid;
    if j > 0 {
      ReachesPaid(cipher, r, j - 1);
      ReachesInv(cipher, r, j - 1);
      StepKeepsPaid(cipher, r.nets[j - 1], r.actions[j - 1], r.nets[j]);
    }
  }

  // ----- the totals -----

  /** The public keys client x has ever sent to client y with success: passed on, under way, or bounced. */
  function SentKeys(net: Net, x: nat, y: nat): nat {
    Count(Stream(net, x, y)) + Bit((x, y) in net.bounced)
  }

  /** The public keys client x has sent to clients 1 to k. */
  function OffersOf(net: Net, x: nat, k: nat): nat {
    if k == 0 then 0 else OffersOf(net, x, k - 1) + SentKeys(net, x, k)
  }

  /** The public keys clients 1 to k have sent to one another and to the rest. */
  function Offers(net: Net, k: nat): nat {
    if k == 0 then 0 else Offers(net, k - 1) + OffersOf(net, k, net.size)
  }

  lemma OneKeyInState(cipher: Cipher, net: Net, x: nat, y: nat)
    requires Inv(cipher, net) && x in net.node
    ensures SentKeys(net, x, y) <= Bit(x != y)
  {
    hide AuthInv, Stream, Count, OrderRecorded;
    MoverIsSane(cipher, net, x);
    assert SenderInv(net, x);
    assert OneOffer(net, x, y);
  }

  lemma {:induction false} OffersOfBound(cipher: Cipher, net: Net, x: nat, k: nat)
    requires Inv(cipher, net) && x in net.node
    ensures OffersOf(net, x, k) <= k - Bit(1 <= x <= k)
  {
    hide Inv, SentKeys;
    if k > 0 {
      OffersOfBound(cipher, net, x, k - 1);
      OneKeyInState(cipher, net, x, k);
    }
  }

  lemma Numbered(cipher: Cipher, net: Net, x: nat)
    requires Inv(cipher, net) && 1 <= x <= net.size
    ensures x in net.node
  {
  }

  lemma {:induction false} OffersBound(cipher: Cipher, net: Net, k: nat)
    requires Inv(cipher, net) && k <= net.size
    ensures k > 0 ==> Offers(net, k) <= k * (net.size - 1)
    ensures k == 0 ==> Offers(net, k) == 0
  {
    hide Inv, OffersOf;
    if k > 0 {
      Numbered(cipher, net, k);
      OffersBound(cipher, net, k - 1);
      OffersOfBound(cipher, net, k, net.size);
      assert k * (net.size - 1) == (k - 1) * (net.size - 1) + (net.size - 1);
    }
  }

  /** The two bounds for one ordered pair of clients. */
  ghost predicate PairBounded(net: Net, x: nat, y: nat)
    requires x in net.node
  {
    && SentKeys(net, x, y) <= Bit(x != y)
    && Rooms(Stream(net, x, y)) <= Count(Tokens(TakenMessages(net.node[x]), y)) <= 1
  }

  lemma PairIsBounded(cipher: Cipher, net: Net, x: nat, y: nat)
    requires Inv(cipher, net) && AllPaid(net) && x in net.node
    ensures PairBounded(net, x, y)
  {
    hide Inv, Stream, Tokens, TakenMessages, Hand;
    OneKeyInState(cipher, net, x, y);
    assert RoomsPaid(net, x, y);
    TakenKeysAreFew(cipher, net, x, y);
  }

  /**
   * In every run, under every interleaving of the clients' threads and every pattern of failing sends, a
   * client sends its key to another with success at most once, and never to itself.
   */
  lemma OneKeyPerPair(cipher: Cipher, r: Run, j: nat, x: nat, y: nat)
    requires Lawful(cipher) && IsRun(cipher, r) && j < |r.nets| && x in r.nets[j].node
    ensures SentKeys(r.nets[j], x, y) <= Bit(x != y)
  {
    hide Inv, Next, SentKeys;
    ReachesInv(cipher, r, j);
    OneKeyInState(cipher, r.nets[j], x, y);
  }

  /**
   * So n connected clients have sent one another at most n(n-1) public keys, and client x has sent client
   * y no more room keys than public keys of y it has taken, hence at most one.
   */
  lemma ExchangeIsBounded(cipher: Cipher, r: Run, j: nat)
    requires Lawful(cipher) && IsRun(cipher, r) && j < |r.nets|
    ensures r.nets[j].size > 0 ==> Offers(r.nets[j], r.nets[j].size) <= r.nets[j].size * (r.nets[j].size - 1)
    ensures forall x, y: nat :: x in r.nets[j].node ==> PairBounded(r.nets[j], x, y)
  {
    hide Inv, AllPaid, Next, Offers, PairBounded;
    var net := r.nets[j];
    ReachesInv(cipher, r, j);
    ReachesPaid(cipher, r, j);
    OffersBound(cipher, net, net.size);
    forall x, y: nat | x in net.node
      ensures PairBounded(net, x, y)
    {
      PairIsBounded(cipher, net, x, y);
    }
  }

  /** What x has taken from y is part of what y has sent to x. */
  lemma TakenKeysAreFew(cipher: Cipher, net: Net, x: nat, y: nat)
    requires Inv(cipher, net) && x in net.node
    ensures Count(Tokens(TakenMessages(net.node[x]), y)) <= 1
  {
    var n := net.node[x];
    assert TakenMessages(n) == n.down[..if n.taken <= |n.down| then n.taken else |n.down|];
    PrefixCounts(n.down, if n.taken <= |n.down| then n.taken else |n.down|, y);
    hide Count, Tokens, TakenMessages, AuthInv;
    if y in net.node {
      OneKeyInState(cipher, net, y, x);
      PrefixSum(Passed(net, y, x), Pending(net, y, x));
    } else {
      StrangersAreSilent(cipher, net, x, y);
    }
  }

  lemma {:induction false} PrefixCounts(ms: seq<AppMessage>, k: nat, p: nat)
    requires k <= |ms|
    ensures Count(Tokens(ms[..k], p)) <= Count(Tokens(ms, p))
    decreases |ms|
  {
    if k < |ms| {
      var front := ms[..|ms| - 1];
      PrefixCounts(front, k, p);
      assert front[..k] == ms[..k];
      PrefixSum(Tokens(front, p), TokenOf(ms[|ms| - 1], p));
    } else {
      assert ms[..k] == ms;
    }
  }

  lemma {:induction false} PrefixSum(a: seq<Token>, b: seq<Token>)
    ensures Count(a) <= Count(a + b)
    decreases |b|
  {
    if b == [] {
      assert a + b == a;
    } else {
      var front := b[..|b| - 1];
      PrefixSum(a, front);
      assert (a + b)[..|a + b| - 1] == a + front;
    }
  }
}
