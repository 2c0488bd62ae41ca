/**
 * What becomes of a newcomer that is given the id of a client that has left. The server hands out the
 * smallest free id again, but the clients forget neither that they have offered their key to that id nor
 * the key its former holder sent.
 */
module IdReuse {
  import opened Bytes
  import opened Messages
  import opened Cipher
  import opened Registry
  import opened Server
  import opened ServerSafety
  import opened ServerRuns
  import opened Client
  import opened ClientViewModel
  import G = Gossip
  import SR = SmallRuns

  // ----- the server -----

  /** The id of a client that leaves goes to the next newcomer if and only if no smaller id is free. */
  lemma NextGetsIdIff(s: Server, fd: Fd)
    requires Valid(s) && fd in s.reg.clients && s.reg.clients[fd].id !in s.banned
    ensures var id, s' := s.reg.clients[fd].id, Removed(s, fd);
            && Valid(s') && HasSpareId(s')
            && (AllocatedId(s') == id <==> forall k: nat :: 1 <= k < id ==> k in s.reg.fdById || k in s.banned)
  {
    hide AllocatedId, PushedAll;
    var id, s' := s.reg.clients[fd].id, Removed(s, fd);
    RemovedKeepsValid(s, fd);
    assert id !in s'.reg.fdById && id !in s'.banned && 1 <= id <= MAX_CLIENT_ID;
    AllocatesSmallest(s');
    assert forall k :: k in s'.reg.fdById <==> k in s.reg.fdById && k != id;
  }

  // ----- the other clients -----

  /**
   * A client told of a newcomer offers it its key if and only if it has never sent an offer to that id
   * before, whoever held it then.
   */
  lemma NewcomerOfferedIff(cipher: Cipher, c: Client, w: Wire, id: nat, nickname: seq<Byte>, nonce: seq<Byte>)
    requires MarksMatch(w.sent, c.offered) && Works(w) && id != 0 && id != c.id
    ensures var sent := Processed(cipher, c, w, UserJoined(id, nickname), nonce).1.sent;
            if forall i :: 0 <= i < |w.sent| ==> !OffersTo(w.sent[i], id)
            then sent == w.sent + [KeyOffer(ById(c.id, id, c.store.public))] else sent == w.sent
  {
  }

  /** The client has offered its key to p and no thread of it is about to take the mark back. */
  predicate HasOffered(n: G.Node, p: nat) {
    p in n.c.offered && !(n.rx.Posting? && n.rx.peer == p) && n.tx != G.Sending(p)
  }

  /** The ids the client's threads are busy with are 32-bit ids, and so are those of its messages. */
  ghost predicate IdsFit(n: G.Node) {
    && (n.rx.Posting? || n.rx.Offering? ==> n.rx.peer < U32_LIMIT)
    && (n.tx.Sending? ==> n.tx.peer < U32_LIMIT)
    && forall i :: 0 <= i < |n.down| ==> WellFormed(n.down[i])
  }

  /** The server has taken from the front of what the client sent and added to what it is sent. */
  ghost predicate Attended(n: G.Node, n': G.Node) {
    && n' == n.(up := n'.up, down := n'.down) && |n'.up| <= |n.up| && n'.up == n.up[|n.up| - |n'.up|..]
    && n.down <= n'.down && forall i :: 0 <= i < |n'.down| ==> WellFormed(n'.down[i])
  }

  ghost predicate NodeStep(cipher: Cipher, n: G.Node, n': G.Node) {
    Attended(n, n') || exists a :: G.CanMove(n, a) && n' == G.Moved(cipher, n, a)
  }

  /** A client from one moment on: its threads, its connection and the failures of its sends in any order. */
  ghost predicate IsLife(cipher: Cipher, life: seq<G.Node>) {
    forall i :: 0 <= i < |life| - 1 ==> NodeStep(cipher, life[i], life[i + 1])
  }

  /** The step from n to n' sends a KeyOffer to p. */
  predicate SendsOffer(n: G.Node, n': G.Node, p: nat) {
    |n'.up| > |n.up| && OffersTo(n'.up[|n'.up| - 1], p)
  }

  lemma OfferNames(n: G.Node, peer: nat, p: nat)
    requires peer < U32_LIMIT
    ensures OffersTo(G.OfferOf(n, peer), p) <==> peer == p
  {
  }

  lemma ContinuesWithoutOffer(cipher: Cipher, n: G.Node, nonce: seq<Byte>, p: nat)
    requires HasOffered(n, p) && IdsFit(n)
    ensures var n' := G.Continued(cipher, n, nonce); HasOffered(n', p) && IdsFit(n') && !SendsOffer(n, n', p)
  {
    hide RoomKeyFor, WellFormed;
    if n.rx.Posting? {
      OfferNames(n, n.rx.peer, p);
    }
  }

  lemma TakesWithoutOffer(cipher: Cipher, n: G.Node, p: nat)
    requires HasOffered(n, p) && IdsFit(n) && n.taken < |n.down|
    ensures var n' := G.Took(cipher, n, n.down[n.taken]); HasOffered(n', p) && IdsFit(n') && !SendsOffer(n, n', p)
  {
    assert WellFormed(n.down[n.taken]);
  }

  lemma MovesWithoutOffer(cipher: Cipher, n: G.Node, a: G.Action, p: nat)
    requires HasOffered(n, p) && IdsFit(n) && G.CanMove(n, a)
    ensures var n' := G.Moved(cipher, n, a); HasOffered(n', p) && IdsFit(n') && !SendsOffer(n, n', p)
  {
    hide G.Continued, G.Took, WellFormed;
    if a.Continues? {
      ContinuesWithoutOffer(cipher, n, a.nonce, p);
    } else if a.Takes? {
      TakesWithoutOffer(cipher, n, p);
    } else if a.Posts? {
      OfferNames(n, n.tx.peer, p);
    }
  }

  /**
   * A client that has offered its key to an id never offers it to that id again, whatever it is told,
   * whatever its user asks for and whatever other sends fail: a newcomer with that id gets no key of it.
   */
  lemma {:induction false} NoSecondOffer(cipher: Cipher, life: seq<G.Node>, j: nat, p: nat)
    requires IsLife(cipher, life) && j < |life| && HasOffered(life[0], p) && IdsFit(life[0])
    ensures HasOffered(life[j], p) && IdsFit(life[j])
    ensures j > 0 ==> !SendsOffer(life[j - 1], life[j], p)
  {
    hide HasOffered, IdsFit, SendsOffer, G.CanMove, G.Moved, Attended;
    if j > 0 {
      NoSecondOffer(cipher, life, j - 1, p);
      var n, n' := life[j - 1], life[j];
      assert NodeStep(cipher, n, n');
      if Attended(n, n') {
        AttendedWithoutOffer(n, n', p);
      } else {
        var a :| G.CanMove(n, a) && n' == G.Moved(cipher, n, a);
        MovesWithoutOffer(cipher, n, a, p);
      }
    }
  }

  lemma AttendedWithoutOffer(n: G.Node, n': G.Node, p: nat)
    requires HasOffered(n, p) && IdsFit(n) && Attended(n, n')
    ensures HasOffered(n', p) && IdsFit(n') && !SendsOffer(n, n', p)
  {
  }

  /** If the newcomer asks for the key it gets at most a room key, which it cannot open. */
  lemma AskingDoesNotHelp(cipher: Cipher, c: Client, w: Wire, newcomer: Client, key: seq<Byte>, nonce: seq<Byte>)
    requires newcomer.id in c.offered && c.id !in newcomer.store.peers
    ensures var sent := Processed(cipher, c, w, PeerKey(newcomer.id, key), nonce).1.sent;
            || sent == w.sent
            || exists sealed :: sent == w.sent + [RoomKeyOffer(ById(c.id, newcomer.id, sealed))]
    ensures forall sealed :: Absorbed(cipher, newcomer, RoomKey(c.id, sealed)) == newcomer
  {
    hide RoomKeyFor;
    var sealed := RoomKeyFor(cipher, Absorbed(cipher, c, PeerKey(newcomer.id, key)), newcomer.id, nonce);
    if sealed.Some? {
      assert KeyOfferSent(Absorbed(cipher, c, PeerKey(newcomer.id, key)), w, newcomer.id).1 == w;
    }
  }

  /** Nothing but a key from x or a ban of x changes what a client holds for x: not that x left or came. */
  lemma {:induction false} KeyOutlivesHolder(saved: map<nat, seq<Byte>>, ms: seq<AppMessage>, x: nat)
    requires forall m :: m in ms ==> !(m.PeerKey? && m.fromId == x) && !(m.BannedIds? && x in m.ids)
    ensures x in PeersAfter(saved, ms) <==> x in saved
    ensures x in saved ==> PeersAfter(saved, ms)[x] == saved[x]
    decreases |ms|
  {
    if ms != [] {
      KeyOutlivesHolder(saved, ms[..|ms| - 1], x);
      assert ms[|ms| - 1] in ms;
    }
  }

  // ----- a run -----

  /** The first client after the second has left: id 2 is free. */
  function Left(told: seq<AppMessage>): Server {
    SR.Alone([], told).(nextId := 3, free := {2})
  }

  function ToldOfLeaving(): seq<AppMessage> {
    SR.FirstTold() + [UserLeft(2, [])]
  }

  function ToldAgain(): seq<AppMessage> {
    ToldOfLeaving() + [UserJoined(2, [])]
  }

  lemma SecondRemoved()
    ensures Removed(SR.Two([], SR.FirstTold(), SR.SecondTold()), 4) == Left(ToldOfLeaving())
  {
    var s, s' := SR.Two([], SR.FirstTold(), SR.SecondTold()), Left(ToldOfLeaving());
    assert s.reg.Remove(4) == s'.reg;
    assert s.free + {2} == {2};
    assert PushedAll(s.outbox - {4}, {3}, UserLeft(2, [])) == s'.outbox;
  }

  lemma SecondLeaves()
    ensures Follows(SR.Two([], SR.FirstTold(), SR.SecondTold()), Hangup(4), Left(ToldOfLeaving()))
  {
    hide Valid, Removed;
    SecondRemoved();
  }

  lemma FreeIdIsTwo(s: Server)
    requires s.nextId == 3 && s.free == {2} && s.banned == {} && s.reg.fdById.Keys == {1}
    ensures HasSpareId(s) && AllocatedId(s) == 2 && Allocated(s) == s.(free := {})
  {
    assert 2 !in s.reg.fdById && 2 !in s.banned;
    assert s.free - s.banned == {2};
    assert Min({2}) == 2;
  }

  lemma NewcomerComes()
    ensures Follows(Left(ToldOfLeaving()), Accept(4), SR.Two([], ToldAgain(), SR.SecondTold()))
  {
    hide Valid, Accepted;
    NewcomerAccepted();
  }

  lemma NewcomerAccepted()
    ensures SR.NextIdIs(Left(ToldOfLeaving()), 2)
    ensures Accepted(Left(ToldOfLeaving()), 4) == SR.Two([], ToldAgain(), SR.SecondTold())
  {
    var s, s' := Left(ToldOfLeaving()), SR.Two([], ToldAgain(), SR.SecondTold());
    FreeIdIsTwo(s);
    hide AllocatedId, Allocated;
    assert s.reg.Add(4, 2) == s'.reg;
    assert s'.reg.clients.Keys - {4} - s.shut == {3};
    assert PushedAll(s.outbox[4 := SR.SecondTold()], {3}, UserJoined(2, [])) == s'.outbox;
  }

  /** The first client has id 1, its sends succeed, and it has sent nothing yet. */
  predicate Ready(c: Client, w: Wire) {
    c.id == 1 && c.offered == {} && w.sent == [] && |w.outcomes| >= 2 && w.outcomes[0] && w.outcomes[1]
  }

  lemma OffersOnce(cipher: Cipher, c: Client, w: Wire, nonce: nat -> seq<Byte>)
    requires Ready(c, w)
    ensures ProcessedAll(cipher, c, w, ToldAgain()[1..], nonce).1.sent == [KeyOffer(ById(1, 2, c.store.public))]
  {
    hide ProcessedAll;
    assert ToldAgain()[1..] == [] + [UserJoined(2, [])] + [UserLeft(2, [])] + [UserJoined(2, [])];
    NoneProcessed(cipher, c, w, nonce);
    OneMoreProcessed(cipher, c, w, [], UserJoined(2, []), nonce);
    OneMoreProcessed(cipher, c, w, [] + [UserJoined(2, [])], UserLeft(2, []), nonce);
    OneMoreProcessed(cipher, c, w, [] + [UserJoined(2, [])] + [UserLeft(2, [])], UserJoined(2, []), nonce);
  }

  /**
   * Two clients connect, the second leaves and another one connects. It gets the id 2 again, and the first
   * client, told of both, sends one KeyOffer only: the one that went to the first holder of the id.
   */
  lemma ReusedIdIsNotKeyed(cipher: Cipher, c: Client, w: Wire, nonce: nat -> seq<Byte>) returns (r: Run)
    requires Ready(c, w)
    ensures IsRun(r) && r.events == [Accept(3), Accept(4), Hangup(4), Accept(4)]
    ensures 3 in r.states[4].outbox && r.states[4].outbox[3] == ToldAgain()
    ensures 4 in r.states[4].outbox && r.states[4].outbox[4] == [AssignId(2, false)]
    ensures ProcessedAll(cipher, c, w, ToldAgain()[1..], nonce).1.sent == [KeyOffer(ById(1, 2, c.store.public))]
  {
    hide Follows, ProcessedAll;
    SR.FirstAccept();
    SR.SecondAccept();
    SecondLeaves();
    NewcomerComes();
    OffersOnce(cipher, c, w, nonce);
    var last := SR.Two([], ToldAgain(), SR.SecondTold());
    r := Run([Initial(), SR.Alone([], SR.Greeted()), SR.Two([], SR.FirstTold(), SR.SecondTold()), Left(ToldOfLeaving()), last],
             [Accept(3), Accept(4), Hangup(4), Accept(4)]);
    assert IsRun(r);
    assert r.states[4] == last;
  }
}
