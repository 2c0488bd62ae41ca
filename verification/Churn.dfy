/**
 * The server with clients that come and go, are banned, and whose sends may fail. Their ids are used again
 * and their keys may come from anywhere, so nothing is said here about who ends up with which key; but the
 * exchange still comes to rest: every step but an accept, a ban and a user's command lowers a measure.
 */
module Churn {
  import opened Bytes
  import opened Messages
  import opened Registry
  import opened Server
  import opened ServerSafety
  import opened ServerSends
  import opened ServerRuns
  import opened Cipher
  import opened Client
  import G = Gossip
  import opened GossipPairs
  import opened GossipMeasure
  import W = World

  /** The server and the client at the other end of each of its connections. */
  datatype Site = Site(server: Server, node: map<Fd, G.Node>)

  datatype Move =
    | Comes(fd: Fd, n: G.Node)       // accept_client returns fd, and client n is at its other end
    | Does(e: Event)                 // the server handles a message, a hang-up or a ban
    | Goes(fd: Fd, a: G.Action)      // a thread of the client on fd takes a step

  // ----- steps -----

  /** A client that has just connected, with whatever its key store holds. */
  predicate Fresh(n: G.Node) {
    && n.taken == 0 && n.rx == G.Idle && n.tx == G.Ready && n.up == [] && n.c.id == 0 && n.c.offered == {}
    && |n.c.store.public| == KEY_SIZE
  }

  /** The event is one the client's end of the connection can cause: its next message, or its end. */
  predicate FromClient(w: Site, e: Event) {
    e.Data? ==>
      || e.incoming.Closed?
      || (e.incoming.Received? && e.fd in w.node && w.node[e.fd].up != [] && e.incoming.message == w.node[e.fd].up[0])
  }

  predicate Takes(e: Event, g: Fd) {
    e.Data? && e.fd == g && e.incoming.Received?
  }

  /** The client on g after the server has handled e and its outbox is down. */
  function Attended(n: G.Node, e: Event, g: Fd, down: seq<AppMessage>): G.Node {
    n.(down := down, up := if Takes(e, g) && n.up != [] then n.up[1..] else n.up)
  }

  ghost predicate AllAttended(w: Site, e: Event, w': Site) {
    forall g :: g in w.node && g in w'.node && g in w'.server.outbox && e != Accept(g) ==>
      w'.node[g] == Attended(w.node[g], e, g, w'.server.outbox[g])
  }

  ghost predicate SiteNext(cipher: Cipher, w: Site, move: Move, w': Site)
    requires Valid(w.server)
  {
    match move
    case Comes(fd, n) =>
      && Fresh(n) && Enabled(w.server, Accept(fd)) && w'.server == Step(w.server, Accept(fd))
      && w'.node.Keys == w.node.Keys + {fd} && fd in w'.server.outbox && w'.node[fd] == n.(down := w'.server.outbox[fd])
      && AllAttended(w, Accept(fd), w')
    case Does(e) =>
      && !e.Accept? && Enabled(w.server, e) && FromClient(w, e) && w'.server == Step(w.server, e)
      && w'.node.Keys == w'.server.reg.clients.Keys
      && AllAttended(w, e, w')
    case Goes(fd, a) =>
      && fd in w.node && IsLocal(a) && G.CanMove(w.node[fd], a)
      && w' == w.(node := w.node[fd := G.Moved(cipher, w.node[fd], a)])
  }

  // ----- what every step keeps -----

  predicate InRange(id: nat, limit: nat) {
    1 <= id < limit
  }

  /** A message the server may have written: the ids in it are below the counter. */
  predicate DownFits(m: AppMessage, limit: nat) {
    match m
    case AssignId(id, _) => id < U32_LIMIT
    case UserJoined(id, _) => InRange(id, limit)
    case PeerKey(id, _) => InRange(id, limit)
    case _ => true
  }

  /** A message a client may have sent: it can be encoded, and keys go to one client. */
  ghost predicate UpFits(m: AppMessage) {
    && WellFormed(m) && (m.Register? || m.ListUsers? || m.Chat? || m.KeyOffer? || m.RoomKeyOffer?)
    && (m.KeyOffer? ==> m.chat.recipientTag == RECIPIENT_BY_ID)
  }

  ghost predicate NodeFits(n: G.Node, limit: nat) {
    && n.taken <= |n.down| && n.down != [] && n.down[0].AssignId?
    && n.c.id < U32_LIMIT && |n.c.store.public| == KEY_SIZE
    && (n.rx != G.Idle ==> InRange(n.rx.peer, limit))
    && (n.rx.PostingRoom? ==> |n.rx.sealed| <= MAX_U16_COUNT)
    && (forall i :: 0 <= i < |n.down| ==> DownFits(n.down[i], limit))
    && (forall i :: 0 <= i < |n.up| ==> UpFits(n.up[i]))
  }

  ghost predicate SiteInv(w: Site) {
    && Valid(w.server) && w.node.Keys == w.server.reg.clients.Keys
    && forall g :: g in w.node ==>
         g in w.server.outbox && w.node[g].down == w.server.outbox[g] && NodeFits(w.node[g], w.server.nextId)
  }

  lemma OfferFits(n: G.Node, p: nat)
    requires n.c.id < U32_LIMIT && |n.c.store.public| == KEY_SIZE
    ensures UpFits(G.OfferOf(n, p))
  {
  }

  lemma UpAppends(n: G.Node, n': G.Node, m: AppMessage, limit: nat)
    requires NodeFits(n, limit) && UpFits(m) && n' == n.(up := n.up + [m], rx := n'.rx, tx := n'.tx)
    requires n'.rx != G.Idle ==> InRange(n'.rx.peer, limit)
    requires n'.rx.PostingRoom? ==> |n'.rx.sealed| <= MAX_U16_COUNT
    ensures NodeFits(n', limit)
  {
    hide UpFits, DownFits;
  }

  lemma ContinuedFits(cipher: Cipher, n: G.Node, nonce: seq<Byte>, limit: nat)
    requires Lawful(cipher) && NodeFits(n, limit) && n.rx != G.Idle
    ensures NodeFits(G.Continued(cipher, n, nonce), limit)
  {
    hide UpFits, DownFits;
    var n' := G.Continued(cipher, n, nonce);
    match n.rx {
      case Posting(p, _) =>
        OfferFits(n, p);
        UpAppends(n, n', G.OfferOf(n, p), limit);
      case PostingRoom(p, sealed) =>
        RoomOfferFits(n.c.id, p, sealed);
        UpAppends(n, n', RoomKeyOffer(ById(n.c.id, p, sealed)), limit);
      case _ =>
    }
  }

  lemma RoomOfferFits(id: nat, p: nat, sealed: seq<Byte>)
    requires id < U32_LIMIT && |sealed| <= MAX_U16_COUNT
    ensures UpFits(RoomKeyOffer(ById(id, p, sealed)))
  {
  }

  lemma TookFits(cipher: Cipher, n: G.Node, limit: nat)
    requires NodeFits(n, limit) && 1 <= n.taken < |n.down|
    ensures NodeFits(G.Took(cipher, n, n.down[n.taken]), limit)
  {
    hide UpFits;
    assert DownFits(n.down[n.taken], limit);
    AbsorbedKeeps(cipher, n.c, n.down[n.taken]);
    hide Absorbed;
  }

  lemma AbsorbedKeeps(cipher: Cipher, c: Client, m: AppMessage)
    ensures var c' := Absorbed(cipher, c, m); c'.id == c.id && c'.store.public == c.store.public
  {
  }

  lemma StartedFits(n: G.Node, nickname: Option<seq<Byte>>, limit: nat)
    requires NodeFits(n, limit) && n.taken == 0 && (nickname.Some? ==> |nickname.value| <= MAX_U16_COUNT)
    ensures NodeFits(G.Started(n, n.down[0], nickname), limit)
  {
    hide DownFits;
    assert DownFits(n.down[0], limit) by {
      AssignedIdFits(n, limit);
    }
    AssignedIdFits(n, limit);
  }

  lemma AssignedIdFits(n: G.Node, limit: nat)
    requires NodeFits(n, limit)
    ensures n.down[0].id < U32_LIMIT && DownFits(n.down[0], limit)
  {
    hide UpFits;
    assert DownFits(n.down[0], limit);
  }

  /** The client's own steps keep it in order. */
  lemma MovedFits(cipher: Cipher, n: G.Node, a: G.Action, limit: nat)
    requires Lawful(cipher) && NodeFits(n, limit) && IsLocal(a) && G.CanMove(n, a)
    ensures NodeFits(G.Moved(cipher, n, a), limit)
  {
    hide UpFits, DownFits, G.Continued, G.Took, G.Started;
    match a {
      case Starts(_, nickname) => StartedFits(n, nickname, limit);
      case Takes(_) => TookFits(cipher, n, limit);
      case Continues(_, nonce) => ContinuedFits(cipher, n, nonce, limit);
      case Posts(_) =>
        OfferFits(n, n.tx.peer);
        UpAppends(n, G.Moved(cipher, n, a), G.OfferOf(n, n.tx.peer), limit);
      case Says(_, m) =>
        SaidFits(m);
        UpAppends(n, G.Moved(cipher, n, a), m, limit);
      case _ =>
    }
  }

  lemma SaidFits(m: AppMessage)
    requires (m.Chat? || m.ListUsers?) && WellFormed(m)
    ensures UpFits(m)
  {
  }

  /** What a step of the server writes to a connection names ids below the counter. */
  lemma HandedFits(s: Server, e: Event, s': Server, g: Fd, m: AppMessage)
    requires Valid(s) && Valid(s') && Effect(s, e, s') && Origin(s, e, s', g, m) && s.nextId <= s'.nextId
    ensures DownFits(m, s'.nextId)
  {
    hide HandsOne, Registry.ValidNames;
  }

  lemma CounterGrows(s: Server, e: Event)
    requires Valid(s) && Enabled(s, e)
    ensures s.nextId <= Step(s, e).nextId
  {
    if e.Accept? && s.free == {} {
      AllocatesSmallest(s);
      SkipBannedIsNext(s.nextId, s.banned);
      assert s.free - s.banned == {};
    } else {
      StepKeepsCounter(s, e);
    }
  }

  lemma LimitGrows(n: G.Node, limit: nat, limit': nat)
    requires NodeFits(n, limit) && limit <= limit'
    ensures NodeFits(n, limit')
  {
    hide UpFits;
    assert forall i :: 0 <= i < |n.down| ==> DownFits(n.down[i], limit) && DownFits(n.down[i], limit');
  }

  lemma StepLinks(s: Server, e: Event)
    requires Valid(s) && Enabled(s, e)
    ensures Valid(Step(s, e)) && Link(s, e, Step(s, e)) && s.nextId <= Step(s, e).nextId
  {
    hide Step, Effect, Enabled;
    StepHasEffect(s, e);
    StepKeepsValid(s, e);
    CounterGrows(s, e);
  }

  lemma StaysValid(s: Server, e: Event)
    requires Valid(s) && Enabled(s, e)
    ensures Valid(Step(s, e))
  {
    hide Step, Valid, Enabled;
    StepKeepsValid(s, e);
  }

  /** The messages a step writes to an open connection: at most one, and it fits. */
  lemma Written(s: Server, e: Event, g: Fd) returns (ms: seq<AppMessage>)
    requires Valid(s) && Enabled(s, e) && g in s.reg.clients && g in Step(s, e).reg.clients && e != Accept(g)
    ensures g in s.outbox && g in Step(s, e).outbox && Step(s, e).outbox[g] == s.outbox[g] + ms && |ms| <= 1
    ensures ms != [] ==> DownFits(ms[0], Step(s, e).nextId)
    ensures s.reg.ValidIds() && (ms != [] ==> Origin(s, e, Step(s, e), g, ms[0]))
  {
    StepLinks(s, e);
    hide Step, Valid, Effect, DownFits, Enabled;
    var s' := Step(s, e);
    WasThere(s, e, s', g);
    LinkHandsOne(s, e, s', g);
    hide Origin;
    if m :| Hands(s, e, s', g, [m]) && Origin(s, e, s', g, m) {
      HandedFits(s, e, s', g, m);
      ms := [m];
    } else {
      ms := [];
    }
  }

  lemma AttendedFits(n: G.Node, e: Event, g: Fd, ms: seq<AppMessage>, limit: nat)
    requires NodeFits(n, limit) && |ms| <= 1 && (ms != [] ==> DownFits(ms[0], limit))
    ensures NodeFits(Attended(n, e, g, n.down + ms), limit)
  {
    hide DownFits, UpFits;
  }

  lemma StaysFit(w: Site, e: Event, w': Site, g: Fd)
    requires SiteInv(w) && Enabled(w.server, e) && w'.server == Step(w.server, e) && AllAttended(w, e, w')
    requires g in w.node && g in w'.node && g in w'.server.reg.clients && e != Accept(g)
    ensures g in w'.server.outbox && w'.node[g].down == w'.server.outbox[g] && NodeFits(w'.node[g], w'.server.nextId)
  {
    hide Valid, Step, Enabled, NodeFits, DownFits;
    var ms := Written(w.server, e, g);
    StepLinks(w.server, e);
    LimitGrows(w.node[g], w.server.nextId, w'.server.nextId);
    AttendedFits(w.node[g], e, g, ms, w'.server.nextId);
  }

  lemma DoesKeepsInv(cipher: Cipher, w: Site, e: Event, w': Site)
    requires SiteInv(w) && SiteNext(cipher, w, Does(e), w')
    ensures SiteInv(w')
  {
    hide Valid, Step, Enabled, NodeFits, Effect, FromClient, Attended;
    StaysValid(w.server, e);
    NobodyComes(w.server, e);
    forall g | g in w'.node
      ensures g in w'.server.outbox && w'.node[g].down == w'.server.outbox[g] && NodeFits(w'.node[g], w'.server.nextId)
    {
      StaysFit(w, e, w', g);
    }
  }

  lemma NobodyComes(s: Server, e: Event)
    requires Valid(s) && Enabled(s, e) && !e.Accept?
    ensures Step(s, e).reg.clients.Keys <= s.reg.clients.Keys
  {
    hide Step, HandsOne;
    StepHasEffect(s, e);
  }

  lemma ComesKeepsInv(cipher: Cipher, w: Site, fd: Fd, n: G.Node, w': Site)
    requires SiteInv(w) && SiteNext(cipher, w, Comes(fd, n), w')
    ensures SiteInv(w')
  {
    hide Valid, Step, Enabled, NodeFits, Effect, Fresh, Attended;
    StaysValid(w.server, Accept(fd));
    NewcomerFits(w.server, fd, n);
    forall g | g in w'.node
      ensures g in w'.server.outbox && w'.node[g].down == w'.server.outbox[g] && NodeFits(w'.node[g], w'.server.nextId)
    {
      if g != fd {
        StaysFit(w, Accept(fd), w', g);
      }
    }
  }

  lemma NewcomerFits(s: Server, fd: Fd, n: G.Node)
    requires Valid(s) && Enabled(s, Accept(fd)) && Fresh(n)
    ensures var s' := Step(s, Accept(fd));
            && s'.reg.clients.Keys == s.reg.clients.Keys + {fd}
            && fd in s'.outbox && NodeFits(n.(down := s'.outbox[fd]), s'.nextId)
  {
    hide Step, Valid, Effect, Enabled;
    StepLinks(s, Accept(fd));
    var s' := Step(s, Accept(fd));
    NewcomerIsThere(s, fd, s');
    FreshOutbox(s, s', fd);
    ConnectedId(s', fd);
    BelowLimit(s');
  }

  lemma NewcomerIsThere(s: Server, fd: Fd, s': Server)
    requires Link(s, Accept(fd), s')
    ensures s'.reg.clients.Keys == s.reg.clients.Keys + {fd}
  {
    hide HandsOne;
  }

  lemma BelowLimit(s: Server)
    requires Valid(s)
    ensures s.nextId < U32_LIMIT
  {
  }

  lemma GoesKeepsInv(cipher: Cipher, w: Site, fd: Fd, a: G.Action, w': Site)
    requires Lawful(cipher) && SiteInv(w) && SiteNext(cipher, w, Goes(fd, a), w')
    ensures SiteInv(w')
  {
    hide Valid, NodeFits, G.CanMove, G.Moved;
    MovedFits(cipher, w.node[fd], a, w.server.nextId);
    MoveKeepsDown(cipher, w.node[fd], a);
  }

  lemma MoveKeepsDown(cipher: Cipher, n: G.Node, a: G.Action)
    requires IsLocal(a) && G.CanMove(n, a)
    ensures G.Moved(cipher, n, a).down == n.down
  {
  }

  lemma SiteStepKeepsInv(cipher: Cipher, w: Site, move: Move, w': Site)
    requires Lawful(cipher) && SiteInv(w) && SiteNext(cipher, w, move, w')
    ensures SiteInv(w')
  {
    hide SiteInv, SiteNext;
    match move
    case Comes(fd, n) => ComesKeepsInv(cipher, w, fd, n, w');
    case Does(e) => DoesKeepsInv(cipher, w, e, w');
    case Goes(fd, a) => GoesKeepsInv(cipher, w, fd, a, w');
  }

  // ----- the measure -----

  /** The ids handed out so far. */
  function IdsBelow(limit: nat): set<nat> {
    set id: nat | id < limit && InRange(id, limit)
  }

  /** What a client's leaving costs: one UserLeft for everyone. */
  function Base(size: nat): nat {
    size + 1
  }

  function WeightOf(w: Site, id: nat): nat {
    var size := if w.server.nextId >= 1 then w.server.nextId - 1 else 0;
    if id in w.server.reg.fdById && w.server.reg.fdById[id] in w.node
    then Weight(w.node[w.server.reg.fdById[id]], IdsBelow(w.server.nextId), size) + Base(size) else 0
  }

  /** An upper bound on the number of steps until the next accept, ban or command. */
  function SiteMeasure(w: Site): nat {
    Sum(SiteWeights(w))
  }

  function SiteWeights(w: Site): seq<nat> {
    seq(if w.server.nextId >= 1 then w.server.nextId - 1 else 0, i requires 0 <= i => WeightOf(w, i + 1))
  }

  /** Not a new client, not a ban and not a user's command. */
  predicate Undisturbed(move: Move) {
    match move
    case Comes(_, _) => false
    case Does(e) => !e.Ban?
    case Goes(_, a) => Internal(a)
  }

  lemma ConnectedId(s: Server, fd: Fd)
    requires Valid(s) && fd in s.reg.clients
    ensures var id := s.reg.clients[fd].id; id in s.reg.fdById && s.reg.fdById[id] == fd && 1 <= id < s.nextId
  {
  }

  lemma SameFd(s: Server, id: nat, fd: Fd)
    requires Valid(s) && id in s.reg.fdById && fd in s.reg.clients
    ensures s.reg.fdById[id] in s.reg.clients && (s.reg.fdById[id] == fd <==> id == s.reg.clients[fd].id)
  {
  }

  lemma GoesPays(cipher: Cipher, w: Site, fd: Fd, a: G.Action, w': Site)
    requires SiteInv(w) && SiteNext(cipher, w, Goes(fd, a), w') && Internal(a)
    ensures SiteMeasure(w') < SiteMeasure(w)
  {
    hide Valid, NodeFits, G.CanMove, G.Moved, Weight, Sum;
    ConnectedId(w.server, fd);
    var z, size := w.server.reg.clients[fd].id, w.server.nextId - 1;
    assert NodeFits(w.node[fd], w.server.nextId);
    PeerIsBelow(w.node[fd], w.server.nextId);
    MovePays(cipher, w.node[fd], a, IdsBelow(w.server.nextId), size);
    var ws, ws' := SiteWeights(w), SiteWeights(w');
    forall i | 0 <= i < size
      ensures ws'[i] + (if i + 1 == z then 1 else 0) <= ws[i]
    {
      if i + 1 in w.server.reg.fdById {
        SameFd(w.server, i + 1, fd);
      }
    }
    SumMoves(ws, ws', z, 1, 0, 0);
  }

  lemma PeerIsBelow(n: G.Node, limit: nat)
    requires NodeFits(n, limit)
    ensures n.rx != G.Idle ==> n.rx.peer in IdsBelow(limit)
  {
  }

  // ----- leaving -----

  lemma LeavingKeepsOthers(s: Server, e: Event)
    requires Valid(s) && Enabled(s, e) && Removes(s, e)
    ensures var s' := Step(s, e);
            && s'.nextId == s.nextId && s'.reg.fdById == s.reg.fdById - {s.reg.clients[e.fd].id}
            && s'.reg.clients == s.reg.clients - {e.fd}
  {
    hide PushedAll;
    assert Step(s, e) == Removed(s, e.fd);
  }

  lemma LeavingWeighs(w: Site, e: Event, w': Site, id: nat)
    requires SiteInv(w) && Enabled(w.server, e) && Removes(w.server, e) && w'.server == Step(w.server, e)
    requires w'.node.Keys == w'.server.reg.clients.Keys && AllAttended(w, e, w') && 1 <= id < w.server.nextId
    ensures w'.server.nextId == w.server.nextId
    ensures WeightOf(w', id) + (if id == w.server.reg.clients[e.fd].id then w.server.nextId else 0) <= WeightOf(w, id) + 1
  {
    hide Valid, Step, Enabled, NodeFits, Weight, Removes, AllAttended, IdsBelow;
    var s, s' := w.server, w'.server;
    LeaverIsThere(s, e);
    LeavingKeepsOthers(s, e);
    ConnectedId(s, e.fd);
    if id in s.reg.fdById {
      SameFd(s, id, e.fd);
      if id != s.reg.clients[e.fd].id {
        StayingWeighs(w, e, w', s.reg.fdById[id]);
      }
    }
  }

  lemma LeaverIsThere(s: Server, e: Event)
    requires Removes(s, e)
    ensures !e.Ban? && e.fd in s.reg.clients
  {
  }

  lemma StayingWeighs(w: Site, e: Event, w': Site, g: Fd)
    requires SiteInv(w) && Enabled(w.server, e) && Removes(w.server, e) && w'.server == Step(w.server, e)
    requires w'.node.Keys == w'.server.reg.clients.Keys && AllAttended(w, e, w') && g in w.server.reg.clients && g != e.fd
    ensures g in w'.node
    ensures Weight(w'.node[g], IdsBelow(w.server.nextId), w.server.nextId - 1) <=
            Weight(w.node[g], IdsBelow(w.server.nextId), w.server.nextId - 1) + 1
  {
    hide Valid, Step, Enabled, Weight, DownFits, UpFits, Removes, IdsBelow, Origin;
    var s, s' := w.server, w'.server;
    ConnectedId(s, g);
    LeavingTells(s, e, g);
    var ms := Written(s, e, g);
    assert w'.node[g] == Attended(w.node[g], e, g, s'.outbox[g]);
    assert NodeFits(w.node[g], s.nextId);
    OneLightMessage(w.node[g], w'.node[g], ms, IdsBelow(s.nextId), s.nextId - 1);
  }

  /** Those who stay are told with one UserLeft, and nothing is taken from them. */
  lemma LeavingTells(s: Server, e: Event, g: Fd)
    requires Valid(s) && Enabled(s, e) && Removes(s, e) && g in s.reg.clients && g != e.fd
    ensures g in Step(s, e).reg.clients && !Takes(e, g) && e != Accept(g)
    ensures forall m :: Origin(s, e, Step(s, e), g, m) ==> !m.PeerKey? && !m.UserJoined?
  {
    LeavingKeepsOthers(s, e);
    hide Step;
  }

  lemma OneLightMessage(n: G.Node, n': G.Node, ms: seq<AppMessage>, ids: set<nat>, size: nat)
    requires n.taken <= |n.down| && |ms| <= 1 && n' == n.(down := n.down + ms)
    requires ms != [] ==> !ms[0].PeerKey? && !ms[0].UserJoined?
    ensures Weight(n', ids, size) <= Weight(n, ids, size) + 1
  {
    AttendedWeight(n, n', ms, false, ids, size);
    hide Weight;
    if ms != [] {
      assert ms[1..] == [];
    }
  }

  lemma LeavingPays(cipher: Cipher, w: Site, e: Event, w': Site)
    requires SiteInv(w) && SiteNext(cipher, w, Does(e), w') && Removes(w.server, e)
    ensures SiteMeasure(w') < SiteMeasure(w)
  {
    hide Valid, NodeFits, Weight, Sum, Step, WeightOf, Enabled, Removes, AllAttended, FromClient;
    LeaverIsThere(w.server, e);
    ConnectedId(w.server, e.fd);
    var z, size := w.server.reg.clients[e.fd].id, w.server.nextId - 1;
    LeavingWeighs(w, e, w', z);
    var ws, ws' := SiteWeights(w), SiteWeights(w');
    forall i | 0 <= i < size
      ensures ws'[i] + (if i + 1 == z then size + 1 else 0) <= ws[i] + 1
    {
      LeavingWeighs(w, e, w', i + 1);
    }
    SumSpreads(ws, ws', z, size + 1, 1);
    OneEach(size);
  }

  // ----- serving -----

  /** The most that one client can be told on account of message m, unless m is a key that is passed on. */
  function Share(m: AppMessage, size: nat): nat {
    if m.Register? then 7 + size else 1
  }

  /** How the weight of message m is spread: to everyone a share, or to one client all of it but one. */
  ghost predicate Pays(w: Site, w': Site, z: nat, m: AppMessage, t: nat, id: nat) {
    var size := if w.server.nextId >= 1 then w.server.nextId - 1 else 0;
    WeightOf(w', id) + (if id == z then UpWeight(m, size) else 0) <=
    WeightOf(w, id) + if t == 0 then Share(m, size) else if id == t then UpWeight(m, size) - 1 else 0
  }

  lemma PayingLowers(w: Site, w': Site, z: nat, m: AppMessage, t: nat)
    requires w'.server.nextId == w.server.nextId && 1 <= z < w.server.nextId && (t == 0 || m.KeyOffer?) && t < w.server.nextId
    requires forall id: nat :: 1 <= id < w.server.nextId ==> Pays(w, w', z, m, t, id)
    ensures SiteMeasure(w') < SiteMeasure(w)
  {
    hide WeightOf, Sum, Times;
    var size := w.server.nextId - 1;
    var ws, ws' := SiteWeights(w), SiteWeights(w');
    forall i | 0 <= i < size
      ensures ws'[i] + (if i + 1 == z then UpWeight(m, size) else 0) <=
              ws[i] + if t == 0 then Share(m, size) else if i + 1 == t then UpWeight(m, size) - 1 else 0
    {
      assert Pays(w, w', z, m, t, i + 1);
    }
    if t == 0 {
      SumSpreads(ws, ws', z, UpWeight(m, size), Share(m, size));
      SharesAreLess(m, size);
    } else {
      SumMoves(ws, ws', z, UpWeight(m, size), t, UpWeight(m, size) - 1);
    }
  }

  lemma SharesAreLess(m: AppMessage, size: nat)
    ensures Times(Share(m, size), size) < UpWeight(m, size)
  {
    OneEach(size);
  }

  /** One client's part, once it is known what it is told. */
  lemma PaysOne(w: Site, e: Event, w': Site, id: nat, ms: seq<AppMessage>, t: nat)
    requires SiteInv(w) && Enabled(w.server, e) && Dispatches(w.server, e) && FromClient(w, e)
    requires w'.server == Step(w.server, e) && w'.node.Keys == w'.server.reg.clients.Keys && AllAttended(w, e, w')
    requires w'.server.reg.fdById == w.server.reg.fdById && w'.server.nextId == w.server.nextId && Valid(w'.server)
    requires 1 <= id < w.server.nextId && e.incoming.Received? && (t == 0 || e.incoming.message.KeyOffer?)
    requires id in w.server.reg.fdById ==>
               var g := w.server.reg.fdById[id];
               && g in w.server.outbox && g in w'.server.outbox && w'.server.outbox[g] == w.server.outbox[g] + ms && |ms| <= 1
               && DownWeights(ms, w.server.nextId - 1) <=
                  if t == 0 then Share(e.incoming.message, w.server.nextId - 1)
                  else if id == t then UpWeight(e.incoming.message, w.server.nextId - 1) - 1 else 0
    ensures Pays(w, w', w.server.reg.clients[e.fd].id, e.incoming.message, t, id)
  {
    hide Valid, Step, Enabled, NodeFits, Weight, DownWeights, Share, IdsBelow;
    ConnectedId(w.server, e.fd);
    var s, size := w.server, w.server.nextId - 1;
    if id in s.reg.fdById {
      SameFd(s, id, e.fd);
      StillOpen(w'.server, id);
      var g := s.reg.fdById[id];
      assert w'.node[g] == Attended(w.node[g], e, g, w'.server.outbox[g]);
      assert NodeFits(w.node[g], s.nextId);
      TakenIsShort(w.node[g], s.nextId);
      AttendedWeight(w.node[g], w'.node[g], ms, id == s.reg.clients[e.fd].id, IdsBelow(s.nextId), size);
    }
  }

  lemma StillOpen(s: Server, id: nat)
    requires Valid(s) && id in s.reg.fdById
    ensures s.reg.fdById[id] in s.reg.clients
  {
  }

  lemma TakenIsShort(n: G.Node, limit: nat)
    requires NodeFits(n, limit)
    ensures n.taken <= |n.down|
  {
  }

  /** The server handles the next message of a client that is not banned. */
  ghost predicate ServesNext(w: Site, e: Event, w': Site) {
    && SiteInv(w) && Enabled(w.server, e) && Dispatches(w.server, e) && FromClient(w, e)
    && w'.server == Step(w.server, e) && w'.node.Keys == w'.server.reg.clients.Keys && AllAttended(w, e, w')
    && w'.server.reg.fdById == w.server.reg.fdById && w'.server.nextId == w.server.nextId && Valid(w'.server)
    && e.incoming.Received?
  }

  lemma LightAnswer(s: Server, e: Event, s': Server, g: Fd, m: AppMessage, size: nat)
    requires s.reg.ValidIds() && Dispatches(s, e) && e.incoming.Received? && !e.incoming.message.KeyOffer? && Origin(s, e, s', g, m)
    ensures DownWeights([m], size) <= Share(e.incoming.message, size)
  {
    assert [m][1..] == [];
  }

  /** Whatever is not a key costs everyone a share at most. */
  lemma SharePaid(w: Site, e: Event, w': Site, id: nat)
    requires ServesNext(w, e, w') && !e.incoming.message.KeyOffer? && 1 <= id < w.server.nextId
    ensures Pays(w, w', w.server.reg.clients[e.fd].id, e.incoming.message, 0, id)
  {
    hide Valid, Step, Enabled, AllAttended, NodeFits, Pays, Origin, Share, DownWeights, DownFits;
    var s, size := w.server, w.server.nextId - 1;
    var ms: seq<AppMessage> := [];
    if id in s.reg.fdById {
      StillOpen(s, id);
      StillOpen(w'.server, id);
      ms := Written(s, e, s.reg.fdById[id]);
      if ms != [] {
        LightAnswer(s, e, w'.server, s.reg.fdById[id], ms[0], size);
        assert ms == [ms[0]];
      } else {
        NothingWeighsNothing(size);
      }
    }
    PaysOne(w, e, w', id, ms, 0);
  }

  lemma NothingWeighsNothing(size: nat)
    ensures DownWeights([], size) == 0
  {
  }

  /** A key for a client that is connected and not banned goes to that client alone. */
  lemma KeyPaid(w: Site, e: Event, w': Site, p: nat, id: nat)
    requires ServesNext(w, e, w') && e.incoming.message.KeyOffer? && 1 <= id < w.server.nextId
    requires w.server.reg.ValidIds() && e.incoming.message.chat.recipientTag != RECIPIENT_BROADCAST
    requires Addressed(w.server, e.incoming.message.chat, p) && p !in w.server.banned && p != 0
    ensures Pays(w, w', w.server.reg.clients[e.fd].id, e.incoming.message, p, id)
  {
    hide Valid, Step, Enabled, AllAttended, NodeFits, Pays, Share, Addressed;
    var s, size, chat := w.server, w.server.nextId - 1, e.incoming.message.chat;
    var ms: seq<AppMessage> := [];
    if id in s.reg.fdById {
      var g := s.reg.fdById[id];
      StillOpen(s, id);
      UnicastSends(s, e, chat, KeyRelay, g);
      SameFd(s, id, g);
      ms := if id == p then [PeerKey(s.reg.clients[e.fd].id, chat.text)] else [];
      OpenOutbox(s, e, g, ms);
      assert id == p ==> ms[1..] == [];
    }
    PaysOne(w, e, w', id, ms, p);
  }

  lemma OpenOutbox(s: Server, e: Event, g: Fd, ms: seq<AppMessage>)
    requires Valid(s) && g in s.reg.clients && !e.Accept? && Appends(s, e, g, ms)
    ensures g in s.outbox && g in Step(s, e).outbox && Step(s, e).outbox[g] == s.outbox[g] + ms
  {
    hide Step;
  }

  /** A key for anybody else costs its sender one Error. */
  lemma RefusalPaid(w: Site, e: Event, w': Site, id: nat)
    requires ServesNext(w, e, w') && e.incoming.message.KeyOffer? && 1 <= id < w.server.nextId
    requires w.server.reg.ValidIds() && e.incoming.message.chat.recipientTag != RECIPIENT_BROADCAST
    requires forall p: nat :: Addressed(w.server, e.incoming.message.chat, p) ==> p in w.server.banned
    ensures Pays(w, w', w.server.reg.clients[e.fd].id, e.incoming.message, 0, id)
  {
    hide Valid, Step, Enabled, AllAttended, NodeFits, Pays, Addressed;
    var s, chat := w.server, e.incoming.message.chat;
    var ms: seq<AppMessage> := [];
    if id in s.reg.fdById {
      var g := s.reg.fdById[id];
      StillOpen(s, id);
      UnicastSends(s, e, chat, KeyRelay, g);
      var text :| |text| <= MAX_U16_COUNT && Appends(s, e, g, if g == e.fd then [Error(text)] else []);
      ms := if g == e.fd then [Error(text)] else [];
      OpenOutbox(s, e, g, ms);
      assert g == e.fd ==> ms[1..] == [];
    }
    PaysOne(w, e, w', id, ms, 0);
  }

  /** The sender's message is one a client may have sent. */
  lemma ServedFits(w: Site, e: Event, w': Site)
    requires ServesNext(w, e, w')
    ensures UpFits(e.incoming.message)
  {
    hide Valid, Step, Enabled, UpFits, DownFits;
    assert NodeFits(w.node[e.fd], w.server.nextId);
  }

  lemma ServingPays(w: Site, e: Event, w': Site)
    requires ServesNext(w, e, w')
    ensures SiteMeasure(w') < SiteMeasure(w)
  {
    hide Valid, Step, Enabled, AllAttended, NodeFits, Pays, Addressed, SiteMeasure, WellFormed;
    var s, m := w.server, e.incoming.message;
    ServedFits(w, e, w');
    ConnectedId(s, e.fd);
    ValidOutboxes(s);
    var z := s.reg.clients[e.fd].id;
    if !m.KeyOffer? {
      forall id: nat | 1 <= id < s.nextId
        ensures Pays(w, w', z, m, 0, id)
      {
        SharePaid(w, e, w', id);
      }
      PayingLowers(w, w', z, m, 0);
    } else if p: nat :| Addressed(s, m.chat, p) && p !in s.banned {
      AddressedIsBelow(s, m.chat, p);
      forall id: nat | 1 <= id < s.nextId
        ensures Pays(w, w', z, m, p, id)
      {
        KeyPaid(w, e, w', p, id);
      }
      PayingLowers(w, w', z, m, p);
    } else {
      forall id: nat | 1 <= id < s.nextId
        ensures Pays(w, w', z, m, 0, id)
      {
        RefusalPaid(w, e, w', id);
      }
      PayingLowers(w, w', z, m, 0);
    }
  }

  lemma AddressedIsBelow(s: Server, chat: ChatPayload, p: nat)
    requires Valid(s) && Addressed(s, chat, p)
    ensures 1 <= p < s.nextId
  {
  }

  /** Every step but an accept, a ban and a command lowers the measure. */
  lemma UndisturbedStepsPay(cipher: Cipher, w: Site, move: Move, w': Site)
    requires SiteInv(w) && SiteNext(cipher, w, move, w') && Undisturbed(move)
    ensures SiteMeasure(w') < SiteMeasure(w)
  {
    if move.Goes? {
      GoesPays(cipher, w, move.fd, move.a, w');
    } else if Removes(w.server, move.e) {
      LeavingPays(cipher, w, move.e, w');
    } else {
      IsServed(cipher, w, move.e, w');
      ServingPays(w, move.e, w');
    }
  }

  lemma IsServed(cipher: Cipher, w: Site, e: Event, w': Site)
    requires SiteInv(w) && SiteNext(cipher, w, Does(e), w') && !e.Ban? && !Removes(w.server, e)
    ensures ServesNext(w, e, w')
  {
    W.DispatchKeepsIds(w.server, e);
    StaysValid(w.server, e);
    hide Valid, Step, AllAttended, NodeFits;
  }

  // ----- whole runs -----

  datatype Walk = Walk(sites: seq<Site>, moves: seq<Move>)

  ghost predicate SiteFollows(cipher: Cipher, w: Site, move: Move, w': Site) {
    Valid(w.server) ==> SiteNext(cipher, w, move, w')
  }

  ghost predicate IsWalk(cipher: Cipher, k: Walk) {
    && |k.sites| == |k.moves| + 1 && k.sites[0] == Site(Initial(), map[])
    && forall j :: 0 <= j < |k.moves| ==> SiteFollows(cipher, k.sites[j], k.moves[j], k.sites[j + 1])
  }

  lemma StartsInOrder()
    ensures SiteInv(Site(Initial(), map[]))
  {
  }

  lemma SiteIsValid(w: Site)
    requires SiteInv(w)
    ensures Valid(w.server)
  {
  }

  lemma {:induction false} StaysInOrder(cipher: Cipher, k: Walk, j: nat)
    requires Lawful(cipher) && IsWalk(cipher, k) && j < |k.sites|
    ensures SiteInv(k.sites[j])
  {
    hide SiteInv, SiteNext, Valid;
    if j == 0 {
      StartsInOrder();
    } else {
      StaysInOrder(cipher, k, j - 1);
      SiteIsValid(k.sites[j - 1]);
      assert SiteFollows(cipher, k.sites[j - 1], k.moves[j - 1], k.sites[j]);
      SiteStepKeepsInv(cipher, k.sites[j - 1], k.moves[j - 1], k.sites[j]);
    }
  }

  /**
   * Quiescence with clients that come and go: from any point of any run, whoever has left, been banned or
   * come back under a used id, and whatever sends fail, at most SiteMeasure further steps can be taken
   * before a client is accepted, somebody is banned or a user gives a command. Leaving is one of the
   * steps.
   */
  lemma {:induction false} RestsUnlessDisturbed(cipher: Cipher, k: Walk, i: nat, j: nat)
    requires Lawful(cipher) && IsWalk(cipher, k) && i <= j < |k.sites|
    requires forall l :: i <= l < j ==> Undisturbed(k.moves[l])
    ensures j - i + SiteMeasure(k.sites[j]) <= SiteMeasure(k.sites[i])
    decreases j
  {
    hide SiteInv, SiteNext, Valid, SiteMeasure, Undisturbed;
    if i < j {
      RestsUnlessDisturbed(cipher, k, i, j - 1);
      StaysInOrder(cipher, k, j - 1);
      SiteIsValid(k.sites[j - 1]);
      assert SiteFollows(cipher, k.sites[j - 1], k.moves[j - 1], k.sites[j]);
      UndisturbedStepsPay(cipher, k.sites[j - 1], k.moves[j - 1], k.sites[j]);
    }
  }

  /** And as long as something is under way, some such step is possible. */
  lemma NeverStuck(cipher: Cipher, w: Site, g: Fd) returns (move: Move, w': Site)
    requires SiteInv(w) && g in w.node && !G.AtRest(w.node[g])
    ensures Undisturbed(move) && SiteNext(cipher, w, move, w')
  {
    hide Valid, Step, SiteNext, NodeFits;
    if w.node[g].up != [] {
      var e := Data(g, Received(w.node[g].up[0]));
      move := Does(e);
      w' := CanHandle(cipher, w, g, e);
    } else {
      assert NodeFits(w.node[g], w.server.nextId);
      var a := CanGo(w.node[g], w.server.nextId);
      move, w' := Goes(g, a), w.(node := w.node[g := G.Moved(cipher, w.node[g], a)]);
      IsGoing(cipher, w, g, a);
    }
  }

  lemma CanHandle(cipher: Cipher, w: Site, g: Fd, e: Event) returns (w': Site)
    requires SiteInv(w) && g in w.node && w.node[g].up != [] && e == Data(g, Received(w.node[g].up[0]))
    ensures SiteNext(cipher, w, Does(e), w')
  {
    hide Valid, Step, Enabled, NodeFits;
    NextCanArrive(w, g, e);
    NobodyComes(w.server, e);
    StaysValid(w.server, e);
    var s' := Step(w.server, e);
    ValidOutboxes(s');
    w' := Site(s', map f | f in s'.reg.clients :: Attended(w.node[f], e, f, s'.outbox[f]));
  }

  lemma NextCanArrive(w: Site, g: Fd, e: Event)
    requires SiteInv(w) && g in w.node && w.node[g].up != [] && e == Data(g, Received(w.node[g].up[0]))
    ensures Enabled(w.server, e) && FromClient(w, e)
  {
    hide Valid, DownFits;
    assert NodeFits(w.node[g], w.server.nextId) && UpFits(w.node[g].up[0]);
  }

  lemma CanGo(n: G.Node, limit: nat) returns (a: G.Action)
    requires NodeFits(n, limit) && !G.AtRest(n) && n.up == []
    ensures IsLocal(a) && Internal(a) && G.CanMove(n, a)
  {
    a := if n.taken == 0 then G.Starts(0, None) else if n.rx != G.Idle then G.Continues(0, [])
         else if n.tx.Sending? then G.Posts(0) else G.Takes(0);
  }

  lemma IsGoing(cipher: Cipher, w: Site, g: Fd, a: G.Action)
    requires Valid(w.server) && g in w.node && IsLocal(a) && G.CanMove(w.node[g], a)
    ensures SiteNext(cipher, w, Goes(g, a), w.(node := w.node[g := G.Moved(cipher, w.node[g], a)]))
  {
    hide Valid, G.CanMove, G.Moved;
  }
}
