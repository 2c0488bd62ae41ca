/** The offers travelling from one client to another, as one stream that the server only forwards. */
module GossipTokens {
  import opened Bytes
  import opened Messages
  import opened Cipher
  import opened Client
  import opened Gossip

  /** A public key on its way, or a sealed room key. */
  datatype Token = K | R

  /** What message m means between its sender and client p: an offer to p, or what p's offer became. */
  function TokenOf(m: AppMessage, p: nat): seq<Token> {
    match m
    case KeyOffer(_) => if Target(m) == p then [K] else []
    case RoomKeyOffer(_) => if Target(m) == p then [R] else []
    case PeerKey(fromId, _) => if fromId == p then [K] else []
    case RoomKey(fromId, _) => if fromId == p then [R] else []
    case _ => []
  }

  function Tokens(ms: seq<AppMessage>, p: nat): seq<Token>
    decreases |ms|
  {
    if ms == [] then [] else Tokens(ms[..|ms| - 1], p) + TokenOf(ms[|ms| - 1], p)
  }

  lemma TokensAppend(ms: seq<AppMessage>, m: AppMessage, p: nat)
    ensures Tokens(ms + [m], p) == Tokens(ms, p) + TokenOf(m, p)
  {
    assert (ms + [m])[..|ms|] == ms;
  }

  lemma {:induction false} TokensHead(ms: seq<AppMessage>, p: nat)
    requires ms != []
    ensures Tokens(ms, p) == TokenOf(ms[0], p) + Tokens(ms[1..], p)
    decreases |ms|
  {
    if |ms| == 1 {
      assert ms[..0] == [] && ms[1..] == [];
    } else {
      var front, tail, last := ms[..|ms| - 1], ms[1..], ms[|ms| - 1];
      TokensHead(front, p);
      assert front[1..] == tail[..|tail| - 1];
      TokensUnfold(ms, p, front, last);
      TokensUnfold(tail, p, front[1..], last);
      Assoc(TokenOf(ms[0], p), Tokens(front[1..], p), TokenOf(last, p));
    }
  }

  lemma TokensUnfold(ms: seq<AppMessage>, p: nat, front: seq<AppMessage>, last: AppMessage)
    requires ms != [] && front == ms[..|ms| - 1] && last == ms[|ms| - 1]
    ensures Tokens(ms, p) == Tokens(front, p) + TokenOf(last, p)
  {
  }

  lemma Assoc(a: seq<Token>, b: seq<Token>, c: seq<Token>)
    ensures (a + b) + c == a + (b + c)
  {
  }

  function Count(ts: seq<Token>): (n: nat)
    ensures n > 0 <==> K in ts
    decreases |ts|
  {
    if ts == [] then 0 else Count(ts[..|ts| - 1]) + (if ts[|ts| - 1] == K then 1 else 0)
  }

  lemma CountAppend(ts: seq<Token>, t: Token)
    ensures Count(ts + [t]) == Count(ts) + (if t == K then 1 else 0)
  {
    assert (ts + [t])[..|ts|] == ts;
  }

  lemma {:induction false} CountHead(ts: seq<Token>)
    requires ts != []
    ensures Count(ts) == (if ts[0] == K then 1 else 0) + Count(ts[1..])
    decreases |ts|
  {
    if |ts| > 1 {
      var front := ts[..|ts| - 1];
      CountHead(front);
      assert front[1..] == ts[1..][..|ts| - 2];
    }
  }

  /** Some room key comes after a public key. */
  ghost predicate KeyThenRoom(ts: seq<Token>) {
    exists i, j :: 0 <= i < j < |ts| && ts[i] == K && ts[j] == R
  }

  lemma KeyThenRoomAppend(ts: seq<Token>, t: Token)
    ensures KeyThenRoom(ts + [t]) <==> KeyThenRoom(ts) || (t == R && K in ts)
  {
    var all := ts + [t];
    if KeyThenRoom(ts) {
      var i, j :| 0 <= i < j < |ts| && ts[i] == K && ts[j] == R;
      assert all[i] == K && all[j] == R;
    }
    if t == R && K in ts {
      var i :| 0 <= i < |ts| && ts[i] == K;
      assert all[i] == K && all[|ts|] == R;
    }
    if KeyThenRoom(all) {
      var i, j :| 0 <= i < j < |all| && all[i] == K && all[j] == R;
      assert ts[i] == K;
      if j < |ts| {
        assert ts[j] == R;
      }
    }
  }

  /** What the server has passed on from client x to client y. */
  function Passed(net: Net, x: nat, y: nat): seq<Token> {
    if y in net.node then Tokens(net.node[y].down, x) else []
  }

  /** What client x has sent towards client y and the server has not handled. */
  function Pending(net: Net, x: nat, y: nat): seq<Token> {
    if x in net.node then Tokens(net.node[x].up, y) else []
  }

  /** Everything client x has sent towards client y, in order. */
  function Stream(net: Net, x: nat, y: nat): seq<Token> {
    Passed(net, x, y) + Pending(net, x, y)
  }

  function Bit(b: bool): nat {
    if b then 1 else 0
  }

  /** A marked offer is in exactly one place: in a thread's hands, in the stream, or bounced. */
  ghost predicate OneOffer(net: Net, x: nat, y: nat)
    requires x in net.node
  {
    var n := net.node[x];
    Count(Stream(net, x, y)) + Bit(n.tx == Sending(y)) + Bit(n.rx.Posting? && n.rx.peer == y) + Bit((x, y) in net.bounced)
    == Bit(y in n.c.offered)
  }

  /** A room key travels behind its sender's public key exactly if it was sent in order and the key arrived. */
  ghost predicate OrderRecorded(net: Net, x: nat, y: nat) {
    KeyThenRoom(Stream(net, x, y)) <==> (x, y) in net.inOrder && (x, y) !in net.bounced
  }

  /** The clients are numbered 1 to size, and the server's first message to each assigned that number. */
  ghost predicate Shape(net: Net) {
    && (forall x :: x in net.node <==> 1 <= x <= net.size)
    && net.size < U32_LIMIT
    && (forall x :: x in net.node ==>
          |net.node[x].down| >= 1 && net.node[x].taken <= |net.node[x].down| && net.node[x].down[0] == AssignId(x, x == 1))
  }

  // ----- the server keeps every stream -----

  /** The answer to m carries m's token on to the client it was for, and no other token to anyone. */
  lemma AnswerTokens(net: Net, z: nat, m: AppMessage, y: nat, ms: seq<AppMessage>, before: seq<AppMessage>, p: nat)
    requires Answers(net, z, m, y, ms) && y in net.node && !m.PeerKey? && !m.RoomKey?
    ensures Tokens(before + ms, p) == Tokens(before, p) + (if p == z then TokenOf(m, y) else [])
  {
    if ms == [] {
      assert before + ms == before;
    } else {
      assert ms == [ms[0]];
      TokensAppend(before, ms[0], p);
    }
  }

  lemma ServedDown(net: Net, z: nat, net': Net, y: nat, p: nat)
    requires ServesTo(net, z, net') && !net.node[z].up[0].PeerKey? && !net.node[z].up[0].RoomKey? && y in net.node
    ensures Tokens(net'.node[y].down, p) == Tokens(net.node[y].down, p) + (if p == z then TokenOf(net.node[z].up[0], y) else [])
  {
    assert Answered(net, z, y, net'.node[y]);
    var ms := net'.node[y].down[|net.node[y].down|..];
    AnswerTokens(net, z, net.node[z].up[0], y, ms, net.node[y].down, p);
    assert net'.node[y].down == net.node[y].down + ms;
  }

  lemma ServedUp(net: Net, z: nat, net': Net, x: nat, y: nat)
    requires ServesTo(net, z, net') && x in net.node
    ensures Tokens(net.node[x].up, y) == (if x == z then TokenOf(net.node[z].up[0], y) else []) + Tokens(net'.node[x].up, y)
  {
    assert Answered(net, z, x, net'.node[x]);
    if x == z {
      TokensHead(net.node[z].up, y);
    }
  }

  /** Moving a token across the boundary of a concatenation changes nothing; a lost one came first. */
  lemma Splice(known: bool, d: seq<Token>, d': seq<Token>, u: seq<Token>, u': seq<Token>, token: seq<Token>)
    requires u == token + u' && (if known then d' == d + token else d == d' == [])
    ensures if known then d' + u' == d + u else d + u == token + (d' + u')
  {
    Assoc(d, token, u');
  }

  /** Serving a message moves a token forward along its stream or, when it bounces, drops it from the front. */
  lemma ServeMovesStream(net: Net, z: nat, net': Net, x: nat, y: nat)
    requires ServesTo(net, z, net') && !net.node[z].up[0].PeerKey? && !net.node[z].up[0].RoomKey?
    ensures if y in net.node then Stream(net', x, y) == Stream(net, x, y)
            else Stream(net, x, y) == (if x == z then TokenOf(net.node[z].up[0], y) else []) + Stream(net', x, y)
  {
    var token := if x == z then TokenOf(net.node[z].up[0], y) else [];
    var d, u := Passed(net, x, y), Pending(net, x, y);
    var d', u' := Passed(net', x, y), Pending(net', x, y);
    assert u == token + u' by {
      if x in net.node {
        ServedUp(net, z, net', x, y);
      }
    }
    assert if y in net.node then d' == d + token else d == d' == [] by {
      if y in net.node {
        ServedDown(net, z, net', y, x);
      }
    }
    Splice(y in net.node, d, d', u, u', token);
  }

  lemma JoinKeepsStream(cipher: Cipher, net: Net, secret: seq<Byte>, random: seq<Byte>, saved: Option<seq<Byte>>, net': Net, x: nat, y: nat)
    requires JoinsTo(cipher, net, secret, random, saved, net') && net.size + 1 !in net.node
    ensures Stream(net', x, y) == Stream(net, x, y)
  {
    JoinKeepsPassed(cipher, net, secret, random, saved, net', x, y);
    JoinKeepsPending(cipher, net, secret, random, saved, net', x, y);
    hide Passed, Pending;
  }

  lemma JoinKeepsPassed(cipher: Cipher, net: Net, secret: seq<Byte>, random: seq<Byte>, saved: Option<seq<Byte>>, net': Net, x: nat, y: nat)
    requires JoinsTo(cipher, net, secret, random, saved, net') && net.size + 1 !in net.node
    ensures Passed(net', x, y) == Passed(net, x, y)
  {
    var newcomer := net.size + 1;
    if y in net.node {
      TokensAppend(net.node[y].down, UserJoined(newcomer, []), x);
    } else if y == newcomer {
      TokensAppend([], AssignId(y, y == 1), x);
      assert net'.node[y].down == [] + [AssignId(y, y == 1)];
    }
  }

  lemma JoinKeepsPending(cipher: Cipher, net: Net, secret: seq<Byte>, random: seq<Byte>, saved: Option<seq<Byte>>, net': Net, x: nat, y: nat)
    requires JoinsTo(cipher, net, secret, random, saved, net') && net.size + 1 !in net.node
    ensures Pending(net', x, y) == Pending(net, x, y)
  {
    if x in net.node {
      assert net'.node[x].up == net.node[x].up;
    }
  }
}
