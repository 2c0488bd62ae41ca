/**
 * A client's whole session: the id it is assigned, its registration and then its receive loop, from the
 * bytes that arrive on its socket in whatever chunks to the copies it keeps. What the server has handed
 * to a connection arrives as it is exactly if every message fits a frame.
 */
module Session {
  import opened Bytes
  import opened Messages
  import opened Codec
  import opened Modbus
  import opened Cipher
  import opened Registry
  import opened Server
  import opened ServerSends
  import opened ServerRuns
  import opened Client
  import opened EndToEnd
  import opened Transport
  import opened ServerWire
  import opened Replica
  import CVM = ClientViewModel
  import G = Gossip
  import NI = NameIndex
  import OE = OwnEntry
  import CB = ClientBans

  // ----- what a stream of bytes brings -----

  /** What receive returns until it returns nothing: a message or an exception for each frame. */
  function Incomings(stream: seq<Byte>): seq<Incoming>
    decreases |stream|
  {
    match NextFrame(stream)
    case None => []
    case Some((frame, size)) => [Arriving(frame.pdu)] + Incomings(stream[size..])
  }

  /** The messages among them: receive_loop reports an exception and goes on. */
  function Understood(incomings: seq<Incoming>): seq<AppMessage> {
    if incomings == [] then []
    else (if incomings[0].Received? then [incomings[0].message] else []) + Understood(incomings[1..])
  }

  function AsReceived(ms: seq<AppMessage>): seq<Incoming> {
    seq(|ms|, i requires 0 <= i < |ms| => Received(ms[i]))
  }

  lemma {:induction false} ReceivedIsUnderstood(ms: seq<AppMessage>)
    ensures Understood(AsReceived(ms)) == ms
  {
    if ms != [] {
      assert AsReceived(ms)[1..] == AsReceived(ms[1..]);
      ReceivedIsUnderstood(ms[1..]);
    }
  }

  predicate AllFit(ms: seq<AppMessage>) {
    forall i :: 0 <= i < |ms| ==> Fits(ms[i])
  }

  lemma WellFormedGoesOut(ms: seq<AppMessage>)
    requires AllWellFormed(ms)
    ensures forall i :: 0 <= i < |ms| ==> OnWire(ms[i]).Some?
  {
    hide Fits, Crosses, WellFormed;
    forall i | 0 <= i < |ms|
      ensures OnWire(ms[i]).Some?
    {
      assert WellFormed(ms[i]);
      CrossesIffFits(ms[i]);
    }
  }

  /** The bytes of messages that can be encoded. */
  ghost function Stream(ms: seq<AppMessage>): seq<Byte>
    requires AllWellFormed(ms)
  {
    WellFormedGoesOut(ms);
    AllOnWire(ms)
  }

  /** Messages sent one after the other arrive as they are if and only if every one of them fits a frame. */
  lemma {:induction false} ArriveIff(ms: seq<AppMessage>)
    requires AllWellFormed(ms)
    ensures Incomings(Stream(ms)) == AsReceived(ms) <==> AllFit(ms)
  {
    hide Fits, Crosses, WellFormed, OnWire, NextFrame, Decode;
    if ms == [] {
      NothingArrives();
    } else {
      var m, rest := ms[0], ms[1..];
      assert AllWellFormed(rest);
      ArriveIff(rest);
      assert WellFormed(m);
      CrossesIffFits(m);
      assert Stream(ms) == OnWire(m).value + Stream(rest);
      assert AsReceived(ms) == [Received(m)] + AsReceived(rest);
      assert AllFit(ms) <==> Fits(m) && AllFit(rest);
      if Fits(m) {
        FirstArrives(m, Stream(rest));
        assert Incomings(Stream(ms)) == [Received(m)] + Incomings(Stream(rest));
        SameTail(Received(m), Incomings(Stream(rest)), AsReceived(rest));
      } else if NextFrame(Stream(ms)).Some? {
        assert Incomings(Stream(ms))[0] == Arriving(NextFrame(Stream(ms)).value.0.pdu) != Received(m);
      }
    }
  }

  lemma SameTail<T>(first: T, a: seq<T>, b: seq<T>)
    ensures [first] + a == [first] + b <==> a == b
  {
    assert ([first] + a)[1..] == a && ([first] + b)[1..] == b;
  }

  lemma NothingArrives()
    ensures Incomings([]) == []
  {
  }

  // ----- the session -----

  /** The connection after register_nickname; encoding a nickname that is too long throws. */
  function AfterRegister(w: CVM.Wire, nickname: Option<seq<Byte>>): Option<CVM.Wire> {
    if nickname.None? then Some(w)
    else if Encode(Register(nickname.value)).Thrown? then None
    else Some(CVM.After(w, Register(nickname.value)))
  }

  /** What a session starts from: client and connection, the nickname to register, and what the cipher will draw. */
  datatype Start = Start(cipher: Cipher, client: Client, wire: CVM.Wire, nickname: Option<seq<Byte>>,
                         random: seq<Byte>, nonce: nat -> seq<Byte>)

  /** Client and connection when the stream has ended; None if the session did not come about. */
  function AfterSession(start: Start, stream: seq<Byte>): Option<(Client, CVM.Wire)> {
    var incomings := Incomings(stream);
    if incomings == [] || !incomings[0].Received? || !incomings[0].message.AssignId? then None
    else match AfterRegister(start.wire, start.nickname)
         case None => None
         case Some(w) =>
           Some(CVM.ProcessedAll(start.cipher, Assigned(start.client, incomings[0].message, start.random), w,
                                 Understood(incomings[1..]), start.nonce))
  }

  /** A session comes about if and only if an AssignId is the first thing to arrive and the nickname has at most 65535 bytes. */
  lemma SessionStartsIff(start: Start, stream: seq<Byte>)
    ensures AfterSession(start, stream).Some? <==>
            && FromWire(stream).Some? && FromWire(stream).value.AssignId?
            && (start.nickname.Some? ==> |start.nickname.value| <= 65535)
  {
    hide NextFrame, Decode, CVM.ProcessedAll;
    var incomings := Incomings(stream);
    if NextFrame(stream).Some? {
      assert incomings[0] == Arriving(NextFrame(stream).value.0.pdu);
    }
  }

  /**
   * A session with a nickname first sends its Register, if that send works, and never another; all else
   * it sends by itself are keys and room keys. One without sends no Register.
   */
  lemma RegisterIsFirst(start: Start, stream: seq<Byte>)
    requires AfterSession(start, stream).Some?
    ensures var sent := AfterSession(start, stream).value.1.sent;
            if start.nickname.Some? && start.wire.outcomes != [] && start.wire.outcomes[0]
            then CVM.AddsKeysOnly(start.wire.sent + [Register(start.nickname.value)], sent)
            else CVM.AddsKeysOnly(start.wire.sent, sent)
  {
    hide CVM.ProcessedAll, Incomings, Assigned;
    var incomings := Incomings(stream);
    CVM.ProcessedAllAddsKeys(start.cipher, Assigned(start.client, incomings[0].message, start.random),
                             AfterRegister(start.wire, start.nickname).value, Understood(incomings[1..]), start.nonce);
  }

  /** A session that has read only its AssignId, and whose Register goes out, is where the step Starts leaves the client. */
  lemma StartIsGossip(start: Start, stream: seq<Byte>, n: G.Node, nickname: seq<Byte>)
    requires n.c == start.client && n.random == start.random && n.up == start.wire.sent
    requires start.nickname == Some(nickname) && start.wire.outcomes == [true]
    requires G.CanMove(n, G.Starts(n.c.id, Some(nickname))) && Incomings(stream) == [Received(n.down[0])]
    ensures var session := AfterSession(start, stream);
            var n' := G.Moved(start.cipher, n, G.Starts(n.c.id, Some(nickname)));
            session.Some? && session.value.0 == n'.c && session.value.1.sent == n'.up
  {
    hide NextFrame, Decode, Incomings;
    assert Understood(Incomings(stream)[1..]) == [];
  }

  /** What is to be understood of a stream: that of its first frame, and then that of the rest. */
  lemma FirstIsUnderstood(stream: seq<Byte>)
    ensures var next := NextFrame(stream);
            if next.None? then Understood(Incomings(stream)) == []
            else var incoming := Arriving(next.value.0.pdu);
                 Understood(Incomings(stream)) ==
                 (if incoming.Received? then [incoming.message] else []) + Understood(Incomings(stream[next.value.1..]))
  {
    hide NextFrame, Arriving;
    var next := NextFrame(stream);
    if next.Some? {
      assert Incomings(stream)[1..] == Incomings(stream[next.value.1..]);
    }
  }

  /** One turn of receive_loop: an exception is reported and nothing else happens. */
  method ReceiveOne(vm: CVM.ClientViewModel, socket: Socket, nonce: seq<Byte>) returns (m: Option<AppMessage>, ended: bool)
    requires vm.Consistent()
    modifies vm, vm.keyStore, vm.link, socket`arrivals
    ensures vm.Consistent()
    ensures (vm.View(), vm.link.View()) ==
            if m.None? then (old(vm.View()), old(vm.link.View()))
            else CVM.Processed(vm.cipher, old(vm.View()), old(vm.link.View()), m.value, nonce)
    ensures var before := Understood(Incomings(old(Readable(socket.arrivals))));
            if ended then m.None? && before == []
            else before == (if m.Some? then [m.value] else []) + Understood(Incomings(Readable(socket.arrivals)))
    ensures !ended ==> |Readable(socket.arrivals)| < |old(Readable(socket.arrivals))|
  {
    hide NextFrame, CVM.Processed, CVM.MarksMatch, WellFormed, Decode, Incomings, Understood;
    FirstIsUnderstood(Readable(socket.arrivals));
    var incoming := Receive(socket);
    ended := incoming.Closed?;
    m := None;
    if incoming.Received? {
      m := Some(incoming.message);
      var shown := vm.HandleIncoming(incoming.message, nonce);
    }
  }

  lemma MovesOver<T>(done: seq<T>, x: T, left: seq<T>)
    ensures done + ([x] + left) == done + [x] + left
  {
  }

  /** receive_loop: takes what arrives until the connection ends. */
  method ReceiveLoop(vm: CVM.ClientViewModel, socket: Socket, nonce: nat -> seq<Byte>)
    requires vm.Consistent()
    modifies vm, vm.keyStore, vm.link, socket`arrivals
    ensures vm.Consistent()
    ensures (vm.View(), vm.link.View()) ==
            CVM.ProcessedAll(vm.cipher, old(vm.View()), old(vm.link.View()), Understood(Incomings(old(Readable(socket.arrivals)))), nonce)
  {
    hide CVM.Processed, CVM.ProcessedAll, CVM.MarksMatch, Incomings, Understood, CVM.Copy, Readable;
    ghost var c, w := vm.View(), vm.link.View();
    CVM.NoneProcessed(vm.cipher, c, w, nonce);
    ghost var done, left := [], Understood(Incomings(Readable(socket.arrivals)));
    ghost var all := left;
    var taken, ended := 0, false;
    while !ended
      invariant vm.Consistent() && taken == |done|
      invariant all == done + left && left == (if ended then [] else Understood(Incomings(Readable(socket.arrivals))))
      invariant (vm.View(), vm.link.View()) == CVM.ProcessedAll(vm.cipher, c, w, done, nonce)
      decreases !ended, |Readable(socket.arrivals)|
    {
      var m: Option<AppMessage>;
      m, ended := ReceiveOne(vm, socket, nonce(taken));
      if m.Some? {
        CVM.OneMoreProcessed(vm.cipher, c, w, done, m.value, nonce);
        MovesOver(done, m.value, left[1..]);
        taken, done, left := taken + 1, done + [m.value], left[1..];
      }
    }
    assert all == done;
  }

  /** run, without the input thread: receive_assigned_id, register_nickname, receive_loop. */
  method RunSession(vm: CVM.ClientViewModel, socket: Socket, nickname: Option<seq<Byte>>, random: seq<Byte>, nonce: nat -> seq<Byte>)
    returns (ok: bool)
    requires vm.Consistent() && |random| == KEY_SIZE
    modifies vm, vm.keyStore, vm.link, socket`arrivals
    ensures vm.Consistent()
    ensures var start := Start(vm.cipher, old(vm.View()), old(vm.link.View()), nickname, random, nonce);
            var after := AfterSession(start, old(Readable(socket.arrivals)));
            ok == after.Some? && (ok ==> (vm.View(), vm.link.View()) == after.value)
  {
    hide NextFrame, CVM.MarksMatch, WellFormed, Decode, CVM.ProcessedAll;
    var incoming := Receive(socket);
    if !incoming.Received? {
      return false;
    }
    ok := vm.ReceiveAssignedId(Some(incoming.message), random);
    if !ok {
      return;
    }
    if nickname.Some? {
      var m := Register(nickname.value);
      if Encode(m).Thrown? {
        return false;
      }
      CVM.OtherMessage(vm.link.sent, vm.keyOfferedTo, m);
      var sent := vm.link.Send(m);
    }
    ReceiveLoop(vm, socket, nonce);
  }

  // ----- sessions with the server -----

  ghost predicate GreetsFirst(s: Server) {
    forall g :: g in s.reg.clients ==> g in s.outbox && s.outbox[g] != [] && Greets(s.outbox[g][0], s.reg.clients[g].id)
  }

  predicate Greets(m: AppMessage, id: nat) {
    m.AssignId? && m.id == id
  }

  lemma StepGreets(s: Server, e: Event, s': Server, g: Fd)
    requires Link(s, e, s') && GreetsFirst(s) && g in s'.reg.clients
    ensures g in s'.outbox && s'.outbox[g] != [] && Greets(s'.outbox[g][0], s'.reg.clients[g].id)
  {
    hide Origin;
    LinkHandsOne(s, e, s', g);
    if e != Accept(g) {
      StepKeepsId(s, e, s', g);
      assert s.outbox[g] <= s'.outbox[g];
    }
  }

  /** The first message of every connection assigns its client the id the registry has for it. */
  lemma {:induction false} ReachesGreeted(r: Run, j: nat)
    requires IsHistory(r) && j < |r.states|
    ensures GreetsFirst(r.states[j])
  {
    hide Effect;
    if j > 0 {
      ReachesGreeted(r, j - 1);
      assert Link(r.states[j - 1], r.events[j - 1], r.states[j]);
      forall g | g in r.states[j].reg.clients
        ensures g in r.states[j].outbox && r.states[j].outbox[g] != []
        ensures Greets(r.states[j].outbox[g][0], r.states[j].reg.clients[g].id)
      {
        StepGreets(r.states[j - 1], r.events[j - 1], r.states[j], g);
      }
    }
  }

  /** In every run, what a connection has been handed arrives as it is if and only if all of it fits. */
  lemma HandedArriveIff(r: Run, j: nat, g: Fd, k: nat)
    requires IsRun(r) && j < |r.states| && g in r.states[j].outbox && k <= |r.states[j].outbox[g]|
    ensures AllWellFormed(r.states[j].outbox[g][..k])
    ensures Incomings(Stream(r.states[j].outbox[g][..k])) == AsReceived(r.states[j].outbox[g][..k])
            <==> AllFit(r.states[j].outbox[g][..k])
  {
    hide Follows, WellFormed, AllFit, Incomings;
    ReachesWell(r, j);
    assert AllWellFormed(r.states[j].outbox[g]);
    ArriveIff(r.states[j].outbox[g][..k]);
  }

  /** A session fed with messages that arrive as they are, of which the first assigns the id. */
  lemma ArrivedCopies(start: Start, stream: seq<Byte>, ms: seq<AppMessage>)
    requires ms != [] && ms[0].AssignId? && Incomings(stream) == AsReceived(ms)
    requires start.client.view == EmptyView() && AfterRegister(start.wire, start.nickname).Some?
    ensures var after := AfterSession(start, stream);
            && after.Some? && after.value.0.id == ms[0].id && after.value.0.view == ViewAfter(ms)
            && after.value.0.store.peers == PeersAfter(start.client.store.peers, ms)
  {
    hide Incomings, CVM.ProcessedAll;
    assert AsReceived(ms)[1..] == AsReceived(ms[1..]);
    ReceivedIsUnderstood(ms[1..]);
    assert [ms[0]] + ms[1..] == ms && [ms[0]][..0] == [];
    CVM.ProcessedAllCopies(start.cipher, Assigned(start.client, ms[0], start.random), AfterRegister(start.wire, start.nickname).value,
                           start.client.store.peers, [ms[0]], ms[1..], start.nonce);
  }

  /** The first k messages of the connection on g, and a client that starts a session with them. */
  ghost predicate Meets(start: Start, r: Run, j: nat, g: Fd, k: nat) {
    && IsRun(r) && j < |r.states| && g in r.states[j].reg.clients && g in r.states[j].outbox
    && 1 <= k <= |r.states[j].outbox[g]|
    && start.client.view == EmptyView() && AfterRegister(start.wire, start.nickname).Some?
  }

  /**
   * If all of the first k messages of its connection fit, the client ends with exactly the id, the
   * membership copy and the peer keys that those messages make of the keys it had saved.
   */
  lemma SessionCopies(start: Start, r: Run, j: nat, g: Fd, k: nat)
    requires Meets(start, r, j, g, k) && AllFit(r.states[j].outbox[g][..k])
    ensures var ms := r.states[j].outbox[g][..k];
            && AllWellFormed(ms)
            && var after := AfterSession(start, Stream(ms));
               && after.Some? && after.value.0.id == r.states[j].reg.clients[g].id
               && after.value.0.view == ViewAfter(ms) && after.value.0.store.peers == PeersAfter(start.client.store.peers, ms)
  {
    hide Follows, AllFit, Incomings, AfterSession, ViewAfter, PeersAfter, AfterRegister, AllWellFormed;
    RunIsHistory(r);
    ReachesGreeted(r, j);
    HandedArriveIff(r, j, g, k);
    var ms := r.states[j].outbox[g][..k];
    assert Greets(ms[0], r.states[j].reg.clients[g].id);
    ArrivedCopies(start, Stream(ms), ms);
  }

  /**
   * The three promises about a client's copies, from the bytes on: as long as everything handed to it
   * fits, its membership copy mirrors the registry as of the step i that emitted the last message.
   */
  lemma SessionMirrors(start: Start, r: Run, j: nat, g: Fd, k: nat) returns (i: nat)
    requires Meets(start, r, j, g, k) && AllFit(r.states[j].outbox[g][..k])
    ensures var own, ms := r.states[j].reg.clients[g].id, r.states[j].outbox[g][..k];
            && i <= j && JustSent(r, i, g, own, ms) && r.states[i].reg.ValidIds() && AllWellFormed(ms)
            && var after := AfterSession(start, Stream(ms));
               after.Some? && Mirrors(after.value.0.view.nicknameById, r.states[i].reg.Names(), own, HasList(ms))
  {
    hide Follows, AllFit, AfterSession, ViewAfter, Mirrors, PeersAfter, AfterRegister, AllWellFormed;
    SessionCopies(start, r, j, g, k);
    i := ClientMirrorsRegistry(r, j, g, k);
  }

  /**
   * Once a UsersList is among the messages, the whole copy, the client's own entry included, equals the
   * registry as of that step if and only if the client still has the nickname it had at the step l that
   * emitted the last UsersList.
   */
  lemma SessionCopyIsExactIff(start: Start, r: Run, j: nat, g: Fd, k: nat) returns (i: nat, l: nat)
    requires Meets(start, r, j, g, k) && AllFit(r.states[j].outbox[g][..k]) && HasList(r.states[j].outbox[g][..k])
    ensures var own, ms := r.states[j].reg.clients[g].id, r.states[j].outbox[g][..k];
            && i <= j && JustSent(r, i, g, own, ms) && r.states[i].reg.ValidIds() && own in r.states[i].reg.Names()
            && l <= j && JustSent(r, l, g, own, ms[..OE.LastList(ms)]) && r.states[l].reg.ValidIds() && own in r.states[l].reg.Names()
            && AllWellFormed(ms)
            && var after := AfterSession(start, Stream(ms));
               && after.Some?
               && (after.value.0.view.nicknameById == r.states[i].reg.Names() <==>
                   r.states[i].reg.Names()[own] == r.states[l].reg.Names()[own])
  {
    hide Follows, AllFit, AfterSession, ViewAfter, PeersAfter, AfterRegister, AllWellFormed, HasList;
    SessionCopies(start, r, j, g, k);
    i, l := OE.CopyIsExactIff(r, j, g, k);
  }

  /** Its reverse index is exact if nobody was renamed. */
  lemma SessionIndexIsExact(start: Start, r: Run, j: nat, g: Fd, k: nat)
    requires Meets(start, r, j, g, k) && AllFit(r.states[j].outbox[g][..k])
    requires forall i :: 0 <= i < j ==> NI.NamesOnce(r.states[i], r.events[i])
    ensures AllWellFormed(r.states[j].outbox[g][..k])
    ensures var after := AfterSession(start, Stream(r.states[j].outbox[g][..k]));
            after.Some? && NI.Inverse(after.value.0.view)
  {
    hide Follows, AllFit, AfterSession, ViewAfter, PeersAfter, AfterRegister, AllWellFormed, NI.Inverse, NI.NamesOnce;
    SessionCopies(start, r, j, g, k);
    NI.ClientIndexIsExact(r, j, g, k);
  }

  /** It holds no key of an id that a BannedIds among the messages named. */
  lemma SessionForgets(start: Start, r: Run, j: nat, g: Fd, i: nat, k: nat, x: nat)
    requires Meets(start, r, j, g, k) && AllFit(r.states[j].outbox[g][..k])
    requires i < k && CB.Announces(r.states[j].outbox[g][i], x)
    ensures AllWellFormed(r.states[j].outbox[g][..k])
    ensures var after := AfterSession(start, Stream(r.states[j].outbox[g][..k]));
            after.Some? && x !in after.value.0.store.peers
  {
    hide Follows, AllFit, AfterSession, ViewAfter, PeersAfter, AfterRegister, AllWellFormed;
    SessionCopies(start, r, j, g, k);
    CB.BannedPeerStaysForgotten(start.client.store.peers, r, j, g, i, k, x);
  }
}
