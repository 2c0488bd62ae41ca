/**
 * The clients' copies of the membership in runs of the whole system. The program's client sends its
 * Register before anything else and only once, so no client takes a nickname after having been sent a
 * list, and every copy is exact.
 */
module WorldReplica {
  import opened Bytes
  import opened Messages
  import opened Registry
  import opened Server
  import opened ServerSafety
  import opened ServerSends
  import ServerRuns
  import opened Cipher
  import opened Client
  import opened Replica
  import opened OwnEntry
  import opened Gossip
  import opened GossipTokens
  import opened GossipAuth
  import opened GossipConvergence
  import opened World

  // ----- one client -----

  /** The client has not said anything, is not doing anything, and has been sent no list. */
  ghost predicate Silent(n: Node) {
    n.up == [] && n.rx == Idle && n.tx == Ready && !HasList(n.down)
  }

  /** A Register is the first message on its way, and then the client has been sent no list. */
  ghost predicate RegistersFirst(n: Node) {
    && (forall i :: 1 <= i < |n.up| ==> !n.up[i].Register?)
    && (n.up != [] && n.up[0].Register? ==> !HasList(n.down))
  }

  /** The client's copy is what its code makes of the messages it has taken. */
  ghost predicate Orderly(n: Node) {
    && n.taken <= |n.down| && n.c.view == ViewAfter(n.down[..n.taken])
    && (n.taken == 0 ==> Silent(n))
    && RegistersFirst(n)
  }

  lemma NewIsOrderly(cipher: Cipher, x: nat, secret: seq<Byte>, random: seq<Byte>, saved: Option<seq<Byte>>)
    ensures Orderly(NewNode(cipher, x, secret, random, saved))
  {
  }

  lemma TookIsOrderly(cipher: Cipher, n: Node)
    requires Orderly(n) && 1 <= n.taken < |n.down|
    ensures Orderly(Took(cipher, n, n.down[n.taken]))
  {
    hide HasList, Observed;
    var m := n.down[n.taken];
    assert n.down[..n.taken + 1][..n.taken] == n.down[..n.taken];
    assert ViewAfter(n.down[..n.taken + 1]) == Observed(ViewAfter(n.down[..n.taken]), m);
    assert Absorbed(cipher, n.c, m).view == Observed(n.c.view, m) by {
      AbsorbedObserves(cipher, n.c, m);
    }
  }

  lemma AbsorbedObserves(cipher: Cipher, c: Client, m: AppMessage)
    ensures Absorbed(cipher, c, m).view == Observed(c.view, m)
  {
  }

  lemma StartedIsOrderly(n: Node, nickname: Option<seq<Byte>>)
    requires Orderly(n) && n.taken == 0 < |n.down| && n.down[0].AssignId?
    ensures Orderly(Started(n, n.down[0], nickname))
  {
    hide HasList;
    assert n.down[..0] == [] && n.down[..1] == [n.down[0]];
    assert ViewAfter([n.down[0]]) == Observed(ViewAfter([n.down[0]][..0]), n.down[0]);
  }

  /** A step of one of the client's threads. */
  lemma MovedIsOrderly(cipher: Cipher, n: Node, a: Action)
    requires Orderly(n) && CanMove(n, a)
    ensures Orderly(Moved(cipher, n, a))
  {
    hide HasList, ViewAfter, RoomKeyFor;
    if a.Starts? {
      StartedIsOrderly(n, a.nickname);
    } else if a.Takes? {
      TookIsOrderly(cipher, n);
    }
  }

  /** The server adds messages to the client's connection, and takes its first message if it handles it. */
  lemma AddressedIsOrderly(n: Node, down: seq<AppMessage>, served: bool)
    requires Orderly(n) && n.down <= down && (served ==> n.up != []) && (served || (HasList(down) ==> HasList(n.down)))
    ensures Orderly(Addressee(n, down, served))
  {
    hide HasList, ViewAfter;
    assert down[..n.taken] == n.down[..n.taken];
  }

  // ----- the whole system -----

  ghost predicate AllOrderly(net: Net) {
    forall x :: x in net.node ==> Orderly(net.node[x])
  }

  /** A step hands a list to nobody but the client it handles. */
  lemma ListsAreAskedFor(s: Server, e: Event, s': Server, g: Fd)
    requires ServerRuns.Link(s, e, s') && g in s.reg.clients && g in s'.reg.clients && e != Accept(g)
    requires !e.Data? || e.fd != g
    ensures s.outbox[g] <= s'.outbox[g] && (HasList(s'.outbox[g]) ==> HasList(s.outbox[g]))
  {
    hide Effect, HasList;
    ServerRuns.LinkHandsOne(s, e, s', g);
    if m :| Hands(s, e, s', g, [m]) && Origin(s, e, s', g, m) {
      ViewAfterAppend(s.outbox[g], m);
    } else {
      assert s'.outbox[g] == s.outbox[g];
    }
  }

  lemma StepLinks(s: Server, e: Event, s': Server)
    requires Valid(s) && Enabled(s, e) && s' == Step(s, e)
    ensures ServerRuns.Link(s, e, s') && Valid(s')
  {
    hide Step, Effect, Enabled;
    StepHasEffect(s, e);
    StepKeepsValid(s, e);
  }

  lemma ConnectIsOrderly(cipher: Cipher, s: Server, net: Net, a: Action, fd: Fd, s': Server, net': Net, i: nat)
    requires Coupled(s, net) && Shape(net) && AllOrderly(net) && a.Joins?
    requires Connects(cipher, s, net, a.secret, a.random, a.saved, fd, s', net') && i in net'.node
    ensures Orderly(net'.node[i])
  {
    hide Valid, Enabled, Step, Orderly, AllocatedId, Shape, HasList;
    AcceptWires(s, net, fd);
    NextIdIsNext(s, net, fd);
    if i == net.size + 1 {
      NewIsOrderly(cipher, i, a.secret, a.random, a.saved);
    } else {
      ViewAfterAppend(net.node[i].down, UserJoined(net.size + 1, []));
      assert s.reg.fdById[i] in s'.outbox;
      assert Orderly(net.node[i]);
      AddressedIsOrderly(net.node[i], s'.outbox[s.reg.fdById[i]], false);
    }
  }

  lemma HandleIsOrderly(cipher: Cipher, s: Server, net: Net, x: nat, s': Server, net': Net, i: nat)
    requires Lawful(cipher) && AuthInv(cipher, net) && Coupled(s, net) && Handles(s, net, x, s', net') && i in net.node
    requires AllOrderly(net)
    ensures Orderly(net'.node[i])
  {
    hide Valid, Enabled, Step, Orderly, AuthInv, HasList, Effect, Dispatches, AnswersTo;
    var e := Data(s.reg.fdById[x], Received(net.node[x].up[0]));
    ServesOne(cipher, s, net, x, i);
    StepLinks(s, e, s');
    HandleKeepsIds(cipher, s, net, x, s', net');
    Connections(s, net, s', x, i);
    var g := s.reg.fdById[i];
    assert s.outbox[g] <= s'.outbox[g] by {
      ServerRuns.LinkHandsOne(s, e, s', g);
    }
    if i != x {
      ListsAreAskedFor(s, e, s', g);
    }
    assert Orderly(net.node[i]);
    AddressedIsOrderly(net.node[i], s'.outbox[g], i == x);
  }

  lemma Connections(s: Server, net: Net, s': Server, x: nat, i: nat)
    requires Coupled(s, net) && Valid(s') && s'.reg.fdById == s.reg.fdById && i in net.node && x in net.node
    ensures var f, g := s.reg.fdById[x], s.reg.fdById[i];
            && g in s.reg.clients && g in s.outbox && g in s'.reg.clients && g in s'.outbox && s.outbox[g] == net.node[i].down
            && (f == g ==> x == i)
  {
  }

  lemma WorldStepIsOrderly(cipher: Cipher, s: Server, net: Net, a: Action, fd: Fd, s': Server, net': Net)
    requires Lawful(cipher) && Inv(cipher, net) && Coupled(s, net) && WorldNext(cipher, s, net, a, fd, s', net')
    requires AllOrderly(net)
    ensures AllOrderly(net')
  {
    hide Coupled, Orderly, AuthInv, Moved, CanMove;
    forall i | i in net'.node
      ensures Orderly(net'.node[i])
    {
      if a.Joins? {
        ShapeOf(cipher, net);
        ConnectIsOrderly(cipher, s, net, a, fd, s', net', i);
      } else if a.Serves? {
        HandleIsOrderly(cipher, s, net, a.x, s', net', i);
      } else if i == a.x {
        MovedIsOrderly(cipher, net.node[i], a);
      }
    }
  }

  // ----- the server's run inside a run of the system -----

  /** The event of the server that an action of the system is. */
  function EventOf(s: Server, net: Net, a: Action, fd: Fd): Event {
    if a.Serves? && a.x in net.node && net.node[a.x].up != [] && a.x in s.reg.fdById
    then Data(s.reg.fdById[a.x], Received(net.node[a.x].up[0])) else Accept(fd)
  }

  /** A step of the system is a step of its server, or leaves the server alone. */
  lemma WorldServerStep(cipher: Cipher, s: Server, net: Net, a: Action, fd: Fd, s': Server, net': Net)
    requires Lawful(cipher) && Inv(cipher, net) && Coupled(s, net) && WorldNext(cipher, s, net, a, fd, s', net')
    requires AllOrderly(net)
    ensures a.Joins? || a.Serves? ==>
              ServerRuns.Follows(s, EventOf(s, net, a, fd), s') && NamesBeforeList(s, EventOf(s, net, a, fd))
    ensures !a.Joins? && !a.Serves? ==> s' == s
  {
    if a.Serves? {
      HandleEvent(cipher, s, net, a.x, s', net');
    } else if a.Joins? {
      ConnectEvent(cipher, s, net, a, fd, s', net');
    }
  }

  lemma ConnectEvent(cipher: Cipher, s: Server, net: Net, a: Action, fd: Fd, s': Server, net': Net)
    requires Valid(s) && a.Joins? && Connects(cipher, s, net, a.secret, a.random, a.saved, fd, s', net')
    ensures ServerRuns.Follows(s, Accept(fd), s') && NamesBeforeList(s, Accept(fd))
  {
  }

  lemma HandleEvent(cipher: Cipher, s: Server, net: Net, x: nat, s': Server, net': Net)
    requires Lawful(cipher) && AuthInv(cipher, net) && Coupled(s, net) && Handles(s, net, x, s', net') && AllOrderly(net)
    ensures var e := Data(s.reg.fdById[x], Received(net.node[x].up[0]));
            ServerRuns.Follows(s, e, s') && NamesBeforeList(s, e)
  {
    hide Valid, Enabled, Step, AuthInv, HasList, Dispatches, AnswersTo, MayTakeNickname;
    ServesOne(cipher, s, net, x, x);
    assert Orderly(net.node[x]);
  }

  lemma {:induction false} StaysOrderly(cipher: Cipher, h: Chronicle, j: nat)
    requires Lawful(cipher) && IsChronicle(cipher, h) && j < |h.run.nets|
    ensures AllOrderly(h.run.nets[j]) && Coupled(h.servers[j], h.run.nets[j]) && Inv(cipher, h.run.nets[j])
  {
    hide Coupled, Inv, WorldNext, Valid, Next, Orderly;
    StaysCoupled(cipher, h, j);
    if j > 0 {
      StaysOrderly(cipher, h, j - 1);
      CoupledIsValid(h.servers[j - 1], h.run.nets[j - 1]);
      assert WorldFollows(cipher, h.servers[j - 1], h.run.nets[j - 1], h.run.actions[j - 1], h.fds[j - 1], h.servers[j], h.run.nets[j]);
      WorldStepIsOrderly(cipher, h.servers[j - 1], h.run.nets[j - 1], h.run.actions[j - 1], h.fds[j - 1], h.servers[j], h.run.nets[j]);
    }
  }

  /** Every state of the run r is the server's state somewhere in the first j steps of the chronicle. */
  ghost predicate Within(r: ServerRuns.Run, h: Chronicle, j: nat) {
    forall n :: 0 <= n < |r.states| ==> r.states[n] in h.servers[..if j < |h.servers| then j + 1 else |h.servers|]
  }

  ghost predicate IsServerRun(r: ServerRuns.Run, s: Server) {
    ServerRuns.IsRun(r) && r.states[|r.events|] == s && NamesBeforeLists(r, |r.events|)
  }

  lemma Extended(r: ServerRuns.Run, s: Server, e: Event, s': Server)
    requires IsServerRun(r, s) && ServerRuns.Follows(s, e, s') && NamesBeforeList(s, e)
    ensures IsServerRun(ServerRuns.Run(r.states + [s'], r.events + [e]), s')
  {
    hide ServerRuns.Follows, NamesBeforeList;
    var r' := ServerRuns.Run(r.states + [s'], r.events + [e]);
    forall i | 0 <= i < |r'.events|
      ensures ServerRuns.Follows(r'.states[i], r'.events[i], r'.states[i + 1]) && NamesBeforeList(r'.states[i], r'.events[i])
    {
      if i < |r.events| {
        assert ServerRuns.Follows(r.states[i], r.events[i], r.states[i + 1]) && NamesBeforeList(r.states[i], r.events[i]);
      }
    }
  }

  /** The servers of a run of the system, without repetitions, are a run of the server. */
  lemma {:induction false} ServerRunOf(cipher: Cipher, h: Chronicle, j: nat) returns (r: ServerRuns.Run)
    requires Lawful(cipher) && IsChronicle(cipher, h) && j < |h.run.nets|
    ensures IsServerRun(r, h.servers[j]) && Within(r, h, j)
  {
    hide Coupled, Inv, WorldNext, Valid, Next, Orderly, ServerRuns.Follows, NamesBeforeList, IsServerRun;
    if j == 0 {
      r := ServerRuns.Run([Initial()], []);
      StartsAsRun();
    } else {
      r := ServerRunOf(cipher, h, j - 1);
      StaysOrderly(cipher, h, j - 1);
      CoupledIsValid(h.servers[j - 1], h.run.nets[j - 1]);
      assert WorldFollows(cipher, h.servers[j - 1], h.run.nets[j - 1], h.run.actions[j - 1], h.fds[j - 1], h.servers[j], h.run.nets[j]);
      var s, net, a, fd, s' := h.servers[j - 1], h.run.nets[j - 1], h.run.actions[j - 1], h.fds[j - 1], h.servers[j];
      WorldServerStep(cipher, s, net, a, fd, s', h.run.nets[j]);
      assert h.servers[..j + 1] == h.servers[..j] + [s'];
      if a.Joins? || a.Serves? {
        Extended(r, s, EventOf(s, net, a, fd), s');
        r := ServerRuns.Run(r.states + [s'], r.events + [EventOf(s, net, a, fd)]);
      }
    }
  }

  lemma StartsAsRun()
    ensures IsServerRun(ServerRuns.Run([Initial()], []), Initial())
  {
  }

  /**
   * In every run of the whole system, every client's copy of the membership is, after any number of taken
   * messages, a submap of the registry as it was when the last of them was sent, and equals it once the
   * client has taken a UsersList.
   */
  lemma WorldCopiesAreExact(cipher: Cipher, h: Chronicle, j: nat, x: nat) returns (i: nat)
    requires Lawful(cipher) && IsChronicle(cipher, h) && j < |h.run.nets|
    requires x in h.run.nets[j].node && h.run.nets[j].node[x].taken >= 1
    ensures i <= j && h.servers[i].reg.ValidIds() && x in h.servers[i].reg.fdById
    ensures var n, s := h.run.nets[j].node[x], h.servers[i];
            && n.taken <= |n.down| && s.reg.fdById[x] in s.outbox && s.outbox[s.reg.fdById[x]] == n.down[..n.taken]
            && IsSubmap(n.c.view.nicknameById, s.reg.Names())
            && (HasList(n.down[..n.taken]) ==> n.c.view.nicknameById == s.reg.Names())
  {
    hide WorldFollows, Inv, ViewAfter, ServerRuns.Follows, NamesBeforeList, HasList, IsSubmap;
    StaysOrderly(cipher, h, j);
    var n, s := h.run.nets[j].node[x], h.servers[j];
    assert Orderly(n);
    var r := ServerRunOf(cipher, h, j);
    assert s.reg.fdById[x] in s.reg.clients && s.reg.clients[s.reg.fdById[x]].id == x;
    var l := CopyIsExact(r, |r.events|, s.reg.fdById[x], n.taken);
    assert r.states[l] in h.servers[..j + 1];
    i :| 0 <= i < j + 1 && h.servers[i] == r.states[l];
  }
}
