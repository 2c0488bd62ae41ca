/** The exchange comes to rest by itself: a measure that every step of the system's own making decreases. */
module GossipMeasure {
  import opened Bytes
  import opened Messages
  import opened Cipher
  import opened Client
  import opened Gossip
  import opened GossipTokens
  import opened GossipPairs
  import opened GossipAuth
  import opened GossipConvergence

  /** Not a new client and not a user's command: the system going on with what it has. */
  predicate Internal(a: Action) {
    a.Serves? || a.Starts? || a.Takes? || a.Continues? || a.Posts? || SendFails(a)
  }

  // ----- weights, for n connected clients -----

  /** c times k, by repeated addition. */
  function Times(c: nat, k: nat): nat {
    if k == 0 then 0 else c + Times(c, k - 1)
  }

  function DownWeight(m: AppMessage, n: nat): nat {
    if m.PeerKey? || m.UserJoined? then 7 + n else 1
  }

  function UpWeight(m: AppMessage, n: nat): nat {
    match m
    case KeyOffer(_) => 8 + n
    case RoomKeyOffer(_) => 2 + n
    case Register(_) => RegisterWeight(n)
    case _ => 1 + n
  }

  /** A registration is announced to everyone. */
  function RegisterWeight(n: nat): (w: nat)
    ensures w >= 1
  {
    Times(7 + n, n) + 1
  }

  function RxWeight(rx: Rx, n: nat): nat {
    match rx
    case Idle => 0
    case Offering(_, _) => 6 + n
    case Posting(_, _) => 14 + 2 * n
    case Sealing(_) => 4 + n
    case PostingRoom(_, _) => 3 + n
  }

  function UpWeights(ms: seq<AppMessage>, n: nat): nat {
    if ms == [] then 0 else UpWeight(ms[0], n) + UpWeights(ms[1..], n)
  }

  function DownWeights(ms: seq<AppMessage>, n: nat): nat {
    if ms == [] then 0 else DownWeight(ms[0], n) + DownWeights(ms[1..], n)
  }

  lemma {:induction false} UpWeightsAppend(ms: seq<AppMessage>, m: AppMessage, n: nat)
    ensures UpWeights(ms + [m], n) == UpWeights(ms, n) + UpWeight(m, n)
  {
    if ms != [] {
      UpWeightsAppend(ms[1..], m, n);
      assert (ms + [m])[1..] == ms[1..] + [m];
    }
  }

  lemma {:induction false} DownWeightsAppend(ms: seq<AppMessage>, m: AppMessage, n: nat)
    ensures DownWeights(ms + [m], n) == DownWeights(ms, n) + DownWeight(m, n)
  {
    if ms != [] {
      DownWeightsAppend(ms[1..], m, n);
      assert (ms + [m])[1..] == ms[1..] + [m];
    }
  }

  /** The connected clients this one has not offered its key to. */
  function Unmarked(n: Node, ids: set<nat>): set<nat> {
    ids - n.c.offered
  }

  function Untaken(n: Node): seq<AppMessage> {
    if n.taken <= |n.down| then n.down[n.taken..] else []
  }

  function Weight(n: Node, ids: set<nat>, size: nat): nat {
    Times(9 + size, |Unmarked(n, ids)|) + UpWeights(n.up, size) + DownWeights(Untaken(n), size)
    + RxWeight(n.rx, size) + (if n.tx.Sending? then 10 + size else 0) + (if n.taken == 0 then RegisterWeight(size) + 1 else 0)
  }

  function Sum(ws: seq<nat>): nat {
    if ws == [] then 0 else Sum(ws[..|ws| - 1]) + ws[|ws| - 1]
  }

  function WeightAt(net: Net, i: nat): nat {
    if i in net.node then Weight(net.node[i], net.node.Keys, net.size) else 0
  }

  function WeightsOf(net: Net): seq<nat> {
    seq(net.size, i requires 0 <= i => WeightAt(net, i + 1))
  }

  /** An upper bound on the number of steps the system can take on its own. */
  function Measure(net: Net): nat {
    Sum(WeightsOf(net))
  }

  lemma {:induction false} SumMoves(ws: seq<nat>, ws': seq<nat>, z: nat, d: nat, t: nat, c: nat)
    requires |ws| == |ws'|
    requires forall i :: 0 <= i < |ws| ==> ws'[i] + (if i + 1 == z then d else 0) <= ws[i] + (if i + 1 == t then c else 0)
    ensures Sum(ws') + (if 1 <= z <= |ws| then d else 0) <= Sum(ws) + (if 1 <= t <= |ws| then c else 0)
    decreases |ws|
  {
    if ws != [] {
      SumMoves(ws[..|ws| - 1], ws'[..|ws| - 1], z, d, t, c);
    }
  }

  lemma {:induction false} SumSpreads(ws: seq<nat>, ws': seq<nat>, z: nat, d: nat, c: nat)
    requires |ws| == |ws'|
    requires forall i :: 0 <= i < |ws| ==> ws'[i] + (if i + 1 == z then d else 0) <= ws[i] + c
    ensures Sum(ws') + (if 1 <= z <= |ws| then d else 0) <= Sum(ws) + Times(c, |ws|)
    decreases |ws|
  {
    if ws != [] {
      SumSpreads(ws[..|ws| - 1], ws'[..|ws| - 1], z, d, c);
    }
  }

  // ----- a client's own steps -----

  lemma MarkingPays(n: Node, peer: nat, ids: set<nat>, c: nat)
    requires peer in ids && peer !in n.c.offered
    ensures var n' := n.(c := n.c.(offered := n.c.offered + {peer}));
            Times(c, |Unmarked(n, ids)|) == Times(c, |Unmarked(n', ids)|) + c
  {
    var n' := n.(c := n.c.(offered := n.c.offered + {peer}));
    var before, after := Unmarked(n, ids), Unmarked(n', ids);
    assert after == before - {peer} && |before| == |after| + 1;
  }

  /** A mark that is taken back costs what it paid. */
  lemma UnmarkingCosts(n: Node, peer: nat, ids: set<nat>, c: nat)
    ensures Times(c, |Unmarked(n.(c := OfferUnmarked(n.c, peer)), ids)|) <= Times(c, |Unmarked(n, ids)|) + c
  {
    var n' := n.(c := OfferUnmarked(n.c, peer));
    var before, after := Unmarked(n, ids), Unmarked(n', ids);
    if peer in ids && peer in n.c.offered {
      assert before == after - {peer} && |after| == |before| + 1;
    } else {
      assert after == before;
    }
  }

  lemma TakingPays(n: Node, size: nat)
    requires n.taken < |n.down|
    ensures DownWeights(Untaken(n), size) == DownWeight(n.down[n.taken], size) + DownWeights(n.down[n.taken + 1..], size)
  {
    assert n.down[n.taken..][1..] == n.down[n.taken + 1..];
  }

  lemma ContinuePays(cipher: Cipher, n: Node, nonce: seq<Byte>, ids: set<nat>, size: nat)
    requires n.rx != Idle && n.rx.peer in ids
    ensures Weight(Continued(cipher, n, nonce), ids, size) < Weight(n, ids, size)
  {
    hide Times, RoomKeyFor;
    match n.rx {
      case Offering(peer, _) =>
        if WantsOffer(n.c, peer) {
          MarkingPays(n, peer, ids, 9 + size);
        }
      case Posting(peer, _) => UpWeightsAppend(n.up, OfferOf(n, peer), size);
      case PostingRoom(peer, sealed) => UpWeightsAppend(n.up, RoomKeyOffer(ById(n.c.id, peer, sealed)), size);
      case Sealing(_) =>
    }
  }

  lemma StartPays(n: Node, m: AppMessage, nickname: Option<seq<Byte>>, ids: set<nat>, size: nat)
    requires n.taken == 0 < |n.down| && m == n.down[0] && m.AssignId?
    ensures Weight(Started(n, m, nickname), ids, size) < Weight(n, ids, size)
  {
    hide Times;
    TakingPays(n, size);
    if nickname.Some? {
      UpWeightsAppend(n.up, Register(nickname.value), size);
    } else {
      assert Started(n, m, nickname).up == n.up;
    }
  }

  lemma TakePays(cipher: Cipher, n: Node, m: AppMessage, ids: set<nat>, size: nat)
    requires 1 <= n.taken < |n.down| && m == n.down[n.taken] && n.rx == Idle
    ensures Weight(Took(cipher, n, m), ids, size) < Weight(n, ids, size)
  {
    assert Absorbed(cipher, n.c, m).offered == n.c.offered;
    hide Times, Absorbed, UpWeights;
    TakingPays(n, size);
  }

  lemma PostPays(n: Node, ids: set<nat>, size: nat)
    requires n.tx.Sending?
    ensures Weight(n.(tx := Ready, up := n.up + [OfferOf(n, n.tx.peer)]), ids, size) < Weight(n, ids, size)
  {
    hide Times;
    UpWeightsAppend(n.up, OfferOf(n, n.tx.peer), size);
  }

  lemma FailurePays(cipher: Cipher, n: Node, a: Action, ids: set<nat>, size: nat)
    requires SendFails(a) && CanMove(n, a)
    ensures Weight(Moved(cipher, n, a), ids, size) < Weight(n, ids, size)
  {
    hide Times, UpWeights, DownWeights, Unmarked;
    if a.PostFails? {
      UnmarkingCosts(n, n.tx.peer, ids, 9 + size);
      SameMarks(n.(c := OfferUnmarked(n.c, n.tx.peer)), Moved(cipher, n, a), ids);
    } else if n.rx.Posting? {
      UnmarkingCosts(n, n.rx.peer, ids, 9 + size);
      SameMarks(n.(c := OfferUnmarked(n.c, n.rx.peer)), Moved(cipher, n, a), ids);
    } else {
      SameMarks(n, Moved(cipher, n, a), ids);
    }
  }

  lemma SameMarks(n: Node, n': Node, ids: set<nat>)
    requires n'.c == n.c
    ensures Unmarked(n', ids) == Unmarked(n, ids)
  {
  }

  lemma MovePays(cipher: Cipher, n: Node, a: Action, ids: set<nat>, size: nat)
    requires IsLocal(a) && Internal(a) && CanMove(n, a)
    requires n.rx != Idle ==> n.rx.peer in ids
    ensures Weight(Moved(cipher, n, a), ids, size) < Weight(n, ids, size)
  {
    hide Weight, Started, Took, Continued, ContinueFailed;
    match a {
      case Starts(_, nickname) => StartPays(n, n.down[0], nickname, ids, size);
      case Takes(_) => TakePays(cipher, n, n.down[n.taken], ids, size);
      case Continues(_, nonce) => ContinuePays(cipher, n, nonce, ids, size);
      case Posts(_) => PostPays(n, ids, size);
      case PostFails(_) => FailurePays(cipher, n, a, ids, size);
      case ContinueFails(_) => FailurePays(cipher, n, a, ids, size);
    }
  }

  // ----- the server's steps -----

  /** What the server adds to a client's connection adds to its weight, and what it takes from it is gone. */
  lemma AttendedWeight(n: Node, n': Node, ms: seq<AppMessage>, served: bool, ids: set<nat>, size: nat)
    requires n.taken <= |n.down| && |ms| <= 1 && (served ==> n.up != [])
    requires n' == n.(down := n.down + ms, up := if served then n.up[1..] else n.up)
    ensures Weight(n', ids, size) + (if served then UpWeight(n.up[0], size) else 0) == Weight(n, ids, size) + DownWeights(ms, size)
  {
    hide Times;
    if ms == [] {
      assert n'.down == n.down;
    } else {
      assert Untaken(n') == Untaken(n) + [ms[0]];
      DownWeightsAppend(Untaken(n), ms[0], size);
      assert ms[1..] == [];
    }
  }

  lemma AnswerWeight(net: Net, z: nat, i: nat, n': Node)
    requires z in net.node && i in net.node && net.node[z].up != [] && Answered(net, z, i, n')
    requires net.node[i].taken <= |net.node[i].down|
    ensures var ms := n'.down[|net.node[i].down|..];
            Weight(n', net.node.Keys, net.size) + (if i == z then UpWeight(net.node[z].up[0], net.size) else 0)
            == Weight(net.node[i], net.node.Keys, net.size) + DownWeights(ms, net.size)
  {
    var n := net.node[i];
    var ms := n'.down[|n.down|..];
    assert n'.down == n.down + ms;
    AttendedWeight(n, n', ms, i == z, net.node.Keys, net.size);
  }

  lemma RelayWeights(net: Net, z: nat, i: nat, n': Node)
    requires z in net.node && i in net.node && net.node[z].up != [] && Answered(net, z, i, n')
    requires net.node[i].taken <= |net.node[i].down| && Relayable(net, net.node[z].up[0])
    ensures var m := net.node[z].up[0];
            Weight(n', net.node.Keys, net.size) + (if i == z then UpWeight(m, net.size) else 0)
            <= Weight(net.node[i], net.node.Keys, net.size) + (if i == Target(m) then UpWeight(m, net.size) - 1 else 0)
  {
    AnswerWeight(net, z, i, n');
    var ms := n'.down[|net.node[i].down|..];
    if i == Target(net.node[z].up[0]) {
      assert ms[1..] == [];
    }
  }

  lemma SpreadWeights(net: Net, z: nat, i: nat, n': Node)
    requires z in net.node && i in net.node && net.node[z].up != [] && Answered(net, z, i, n')
    requires net.node[i].taken <= |net.node[i].down| && !Relayable(net, net.node[z].up[0])
    ensures var m := net.node[z].up[0];
            Weight(n', net.node.Keys, net.size) + (if i == z then UpWeight(m, net.size) else 0)
            <= Weight(net.node[i], net.node.Keys, net.size) + (if m.Register? then 7 + net.size else 1)
  {
    AnswerWeight(net, z, i, n');
    var ms := n'.down[|net.node[i].down|..];
    if ms != [] {
      assert ms[1..] == [];
    }
  }

  lemma InRange(net: Net, x: nat)
    requires Shape(net) && x in net.node
    ensures 1 <= x <= net.size
  {
  }

  lemma RelayPaysAt(net: Net, z: nat, net': Net, i: nat)
    requires Shape(net) && ServesTo(net, z, net') && Relayable(net, net.node[z].up[0]) && 1 <= i <= net.size
    ensures var m, w := net.node[z].up[0], UpWeight(net.node[z].up[0], net.size);
            WeightAt(net', i) + (if i == z then w else 0) <= WeightAt(net, i) + (if i == Target(m) then w - 1 else 0)
  {
    assert Answered(net, z, i, net'.node[i]);
    RelayWeights(net, z, i, net'.node[i]);
  }

  lemma RelayPays(net: Net, z: nat, net': Net)
    requires Shape(net) && ServesTo(net, z, net') && Relayable(net, net.node[z].up[0])
    ensures Measure(net') < Measure(net)
  {
    hide WeightAt, Answered, Shape;
    InRange(net, z);
    InRange(net, Target(net.node[z].up[0]));
    var m, w := net.node[z].up[0], UpWeight(net.node[z].up[0], net.size);
    var ws, ws' := WeightsOf(net), WeightsOf(net');
    forall i | 0 <= i < net.size
      ensures ws'[i] + (if i + 1 == z then w else 0) <= ws[i] + (if i + 1 == Target(m) then w - 1 else 0)
    {
      RelayPaysAt(net, z, net', i + 1);
    }
    SumMoves(ws, ws', z, w, Target(m), w - 1);
  }

  lemma {:induction false} OneEach(k: nat)
    ensures Times(1, k) == k
  {
    if k > 0 {
      OneEach(k - 1);
    }
  }

  lemma SpreadPaysAt(net: Net, z: nat, net': Net, i: nat)
    requires Shape(net) && ServesTo(net, z, net') && !Relayable(net, net.node[z].up[0]) && 1 <= i <= net.size
    ensures var m, w := net.node[z].up[0], UpWeight(net.node[z].up[0], net.size);
            WeightAt(net', i) + (if i == z then w else 0) <= WeightAt(net, i) + (if m.Register? then 7 + net.size else 1)
  {
    assert Answered(net, z, i, net'.node[i]);
    SpreadWeights(net, z, i, net'.node[i]);
  }

  lemma SpreadPays(net: Net, z: nat, net': Net)
    requires Shape(net) && ServesTo(net, z, net') && !Relayable(net, net.node[z].up[0])
    ensures Measure(net') < Measure(net)
  {
    hide WeightAt, Answered, Shape;
    InRange(net, z);
    var m, w := net.node[z].up[0], UpWeight(net.node[z].up[0], net.size);
    var c := if m.Register? then 7 + net.size else 1;
    var ws, ws' := WeightsOf(net), WeightsOf(net');
    forall i | 0 <= i < net.size
      ensures ws'[i] + (if i + 1 == z then w else 0) <= ws[i] + c
    {
      SpreadPaysAt(net, z, net', i + 1);
    }
    SumSpreads(ws, ws', z, w, c);
    OneEach(net.size);
    assert Times(c, net.size) < w;
  }

  lemma ServePays(net: Net, z: nat, net': Net)
    requires Shape(net) && ServesTo(net, z, net')
    ensures Measure(net') < Measure(net)
  {
    if Relayable(net, net.node[z].up[0]) {
      RelayPays(net, z, net');
    } else {
      SpreadPays(net, z, net');
    }
  }

  /** The receive thread deals with connected clients only. */
  lemma PeerIsConnected(cipher: Cipher, net: Net, x: nat)
    requires AuthInv(cipher, net) && x in net.node
    ensures net.node[x].rx != Idle ==> net.node[x].rx.peer in net.node
  {
    assert NodeOk(cipher, SecretsOf(net), RoomKeys(net), x, net.node[x]);
  }

  lemma LocalPaysAt(cipher: Cipher, net: Net, a: Action, net': Net, i: nat)
    requires AuthInv(cipher, net) && IsLocal(a) && Internal(a) && MovesTo(cipher, net, a, net') && 1 <= i <= net.size
    ensures WeightAt(net', i) + (if i == a.x then 1 else 0) <= WeightAt(net, i)
  {
    hide Moved, CanMove, Weight, NodeOk;
    assert net'.node.Keys == net.node.Keys;
    if i == a.x {
      PeerIsConnected(cipher, net, i);
      MovePays(cipher, net.node[i], a, net.node.Keys, net.size);
    }
  }

  lemma LocalPays(cipher: Cipher, net: Net, a: Action, net': Net)
    requires AuthInv(cipher, net) && IsLocal(a) && Internal(a) && MovesTo(cipher, net, a, net')
    ensures Measure(net') < Measure(net)
  {
    hide WeightAt, Shape, NodeOk, Moved, CanMove;
    InRange(net, a.x);
    var ws, ws' := WeightsOf(net), WeightsOf(net');
    forall i | 0 <= i < net.size
      ensures ws'[i] + (if i + 1 == a.x then 1 else 0) <= ws[i]
    {
      LocalPaysAt(cipher, net, a, net', i + 1);
    }
    SumMoves(ws, ws', a.x, 1, 0, 0);
  }

  /** Every internal step of a reachable network decreases the measure. */
  lemma InternalStepsPay(cipher: Cipher, net: Net, a: Action, net': Net)
    requires Inv(cipher, net) && Internal(a) && Next(cipher, net, a, net')
    ensures Measure(net') < Measure(net)
  {
    if a.Serves? {
      ServePays(net, a.x, net');
    } else {
      LocalPays(cipher, net, a, net');
    }
  }

  lemma RunPays(cipher: Cipher, r: Run, k: nat)
    requires Lawful(cipher) && IsRun(cipher, r) && k < |r.actions| && Internal(r.actions[k])
    ensures Measure(r.nets[k + 1]) < Measure(r.nets[k])
  {
    ReachesInv(cipher, r, k);
    InternalStepsPay(cipher, r.nets[k], r.actions[k], r.nets[k + 1]);
  }

  /**
   * Quiescence: from any point of any run, under any interleaving, at most Measure further steps can be
   * taken before a user gives a command or a client joins.
   */
  lemma {:induction false} ComesToRest(cipher: Cipher, r: Run, i: nat, j: nat)
    requires Lawful(cipher) && IsRun(cipher, r) && i <= j < |r.nets|
    requires forall k :: i <= k < j ==> Internal(r.actions[k])
    ensures j - i + Measure(r.nets[j]) <= Measure(r.nets[i])
    decreases j
  {
    hide Measure, Next;
    if i < j {
      ComesToRest(cipher, r, i, j - 1);
      RunPays(cipher, r, j - 1);
    }
  }

  /** And as long as something is under way, some internal step is possible: the exchange cannot get stuck. */
  lemma NeverStuck(cipher: Cipher, net: Net) returns (a: Action, net': Net)
    requires Shape(net) && !Quiescent(net)
    ensures Internal(a) && Next(cipher, net, a, net')
  {
    var x :| x in net.node && !AtRest(net.node[x]);
    if net.node[x].up != [] {
      a := Serves(x);
      net' := CanServe(net, x);
    } else {
      a, net' := CanGoOn(cipher, net, x);
    }
  }

  /** The server can always handle a message that has arrived. */
  lemma CanServe(net: Net, x: nat) returns (net': Net)
    requires x in net.node && net.node[x].up != []
    ensures ServesTo(net, x, net')
  {
    var m := net.node[x].up[0];
    net' := net.(node := map i | i in net.node ::
                   net.node[i].(down := net.node[i].down + (if Relayable(net, m) && i == Target(m) then [RelayedAs(x, m)] else []),
                                up := if i == x then net.node[x].up[1..] else net.node[i].up),
                 bounced := BouncedBy(net, x, m));
  }

  /** A client with something to do and nothing for the server can do it. */
  lemma CanGoOn(cipher: Cipher, net: Net, x: nat) returns (a: Action, net': Net)
    requires Shape(net) && x in net.node && !AtRest(net.node[x]) && net.node[x].up == []
    ensures IsLocal(a) && Internal(a) && MovesTo(cipher, net, a, net')
  {
    hide Moved;
    var n := net.node[x];
    a := if n.taken == 0 then Starts(x, None) else if n.rx != Idle then Continues(x, []) else if n.tx.Sending? then Posts(x) else Takes(x);
    net' := net.(node := net.node[x := Moved(cipher, n, a)],
                 inOrder := if SendsRoomInOrder(n, a) then net.inOrder + {(x, n.rx.peer)} else net.inOrder);
  }
}
