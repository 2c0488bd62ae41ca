/**
 * The loop of ServerViewModel::run: the vector of polled descriptors beside the server, one turn at a
 * time. At every loop head the vector lists exactly the connected clients, and the server's state is
 * the last of a run of module ServerRuns, so that everything proved of runs holds of it.
 */
module PollLoop {
  import opened Bytes
  import opened Messages
  import opened Registry
  import opened Server
  import opened ServerSends
  import opened ServerRuns
  import opened ServerViewModel

  /** An entry of the vector with what poll reported: readable for POLLIN, failed for an error or a hang-up. */
  datatype PollFd = PollFd(fd: Fd, readable: bool, failed: bool)

  ghost predicate Listed(p: seq<PollFd>, fd: Fd) {
    exists i :: 1 <= i < |p| && p[i].fd == fd
  }

  /** After the listening socket, the entries that are not crossed out name each of the descriptors once. */
  ghost predicate Lists(p: seq<PollFd>, fds: set<Fd>) {
    && (forall i :: 1 <= i < |p| && p[i].fd >= 0 ==> p[i].fd in fds)
    && (forall fd :: fd in fds ==> fd >= 0 && Listed(p, fd))
    && (forall i, j :: 1 <= i < j < |p| && p[i].fd >= 0 ==> p[i].fd != p[j].fd)
  }

  /** No entry is crossed out: pollfds[1..] is a list of the clients' descriptors without repetition. */
  ghost predicate Agrees(p: seq<PollFd>, listenFd: Fd, fds: set<Fd>) {
    && |p| >= 1 && p[0].fd == listenFd && listenFd >= 0 && listenFd !in fds
    && Lists(p, fds) && forall i :: 1 <= i < |p| ==> p[i].fd >= 0
  }

  function CrossedOut(p: seq<PollFd>, i: nat): seq<PollFd>
    requires i < |p|
  {
    p[i := p[i].(fd := -1)]
  }

  lemma CrossingOut(p: seq<PollFd>, fds: set<Fd>, i: nat)
    requires Lists(p, fds) && 1 <= i < |p| && p[i].fd >= 0
    ensures p[i].fd in fds && Lists(CrossedOut(p, i), fds - {p[i].fd})
  {
    var q := CrossedOut(p, i);
    forall fd | fd in fds - {p[i].fd}
      ensures Listed(q, fd)
    {
      var j :| 1 <= j < |p| && p[j].fd == fd;
      assert q[j].fd == fd;
    }
    assert forall j :: 1 <= j < |p| && j != i && p[j].fd >= 0 ==> p[j].fd != p[i].fd;
  }

  lemma Appending(p: seq<PollFd>, fds: set<Fd>, entry: PollFd)
    requires Lists(p, fds) && |p| >= 1 && entry.fd >= 0 && entry.fd !in fds
    ensures Lists(p + [entry], fds + {entry.fd})
  {
    var q := p + [entry];
    assert q[|p|] == entry;
    forall fd | fd in fds + {entry.fd}
      ensures Listed(q, fd)
    {
      if fd != entry.fd {
        var j :| 1 <= j < |p| && p[j].fd == fd;
        assert q[j].fd == fd;
      }
    }
  }

  /** erase and remove_if: the entries that are not crossed out. */
  function Kept(p: seq<PollFd>): seq<PollFd> {
    if p == [] then [] else Kept(p[..|p| - 1]) + (if p[|p| - 1].fd >= 0 then [p[|p| - 1]] else [])
  }

  lemma {:induction false} KeptAgrees(p: seq<PollFd>, fds: set<Fd>)
    requires |p| >= 1 && p[0].fd >= 0 && Lists(p, fds)
    ensures |Kept(p)| >= 1 && Kept(p)[0] == p[0] && Lists(Kept(p), fds)
    ensures forall i :: 1 <= i < |Kept(p)| ==> Kept(p)[i].fd >= 0
  {
    var front, last := p[..|p| - 1], p[|p| - 1];
    if |p| == 1 {
      assert front == [] && Kept(p) == [p[0]];
      assert forall fd :: !Listed(p, fd);
    } else {
      FrontLists(p, fds);
      KeptAgrees(front, if last.fd >= 0 then fds - {last.fd} else fds);
      if last.fd >= 0 {
        Appending(Kept(front), fds - {last.fd}, last);
        assert fds - {last.fd} + {last.fd} == fds;
      } else {
        assert Kept(p) == Kept(front);
      }
    }
  }

  lemma FrontLists(p: seq<PollFd>, fds: set<Fd>)
    requires |p| >= 2 && Lists(p, fds)
    ensures Lists(p[..|p| - 1], if p[|p| - 1].fd >= 0 then fds - {p[|p| - 1].fd} else fds)
    ensures p[|p| - 1].fd >= 0 ==> p[|p| - 1].fd in fds
  {
    var front, last := p[..|p| - 1], p[|p| - 1];
    forall fd | fd in fds && fd != last.fd
      ensures Listed(front, fd)
    {
      var j :| 1 <= j < |p| && p[j].fd == fd;
      assert front[j].fd == fd;
    }
  }

  lemma Extends(r: Run, s: Server, e: Event, s': Server)
    requires IsRun(r) && r.states[|r.events|] == s && Follows(s, e, s')
    ensures IsRun(Run(r.states + [s'], r.events + [e]))
  {
    hide Follows;
    var r' := Run(r.states + [s'], r.events + [e]);
    forall j | 0 <= j < |r'.events|
      ensures Follows(r'.states[j], r'.events[j], r'.states[j + 1])
    {
      if j < |r.events| {
        assert Follows(r.states[j], r.events[j], r.states[j + 1]);
      }
    }
  }

  // ----- what a turn does, in order -----

  /** The failed connections among entries 1 to k - 1 are hung up. */
  function Hangups(p: seq<PollFd>, k: nat): seq<Event>
    requires k <= |p|
  {
    if k <= 1 then [] else Hangups(p, k - 1) + (if p[k - 1].failed then [Hangup(p[k - 1].fd)] else [])
  }

  /** What entry i gives rise to: a new connection for the listening socket, else one message handled. */
  function EventsAt(p: seq<PollFd>, inputs: seq<Incoming>, accepted: Option<Fd>, i: nat): seq<Event>
    requires i < |p| <= |inputs|
  {
    if p[i].fd < 0 || !p[i].readable then []
    else if i > 0 then [Data(p[i].fd, inputs[i])]
    else if accepted.Some? then [Accept(accepted.value)]
    else []
  }

  /** Then the first k entries that are readable and have not been crossed out are served, once each. */
  function Services(p: seq<PollFd>, inputs: seq<Incoming>, accepted: Option<Fd>, k: nat): seq<Event>
    requires k <= |p| <= |inputs|
  {
    if k == 0 then [] else Services(p, inputs, accepted, k - 1) + EventsAt(p, inputs, accepted, k - 1)
  }

  lemma NothingServed(p: seq<PollFd>, inputs: seq<Incoming>, accepted: Option<Fd>)
    requires |p| <= |inputs|
    ensures Services(p, inputs, accepted, 0) == []
  {
  }

  lemma OneMoreServed(p: seq<PollFd>, inputs: seq<Incoming>, accepted: Option<Fd>, i: nat)
    requires i < |p| <= |inputs|
    ensures Services(p, inputs, accepted, i + 1) == Services(p, inputs, accepted, i) + EventsAt(p, inputs, accepted, i)
  {
  }

  /** The entries after the error pass: failed ones are crossed out. */
  function Surviving(p: seq<PollFd>): (q: seq<PollFd>)
    ensures |q| == |p|
  {
    seq(|p|, i requires 0 <= i < |p| => if i > 0 && p[i].failed then p[i].(fd := -1) else p[i])
  }

  function Polled(p: seq<PollFd>, readable: seq<bool>, failed: seq<bool>): (q: seq<PollFd>)
    requires |readable| == |failed| == |p|
    ensures |q| == |p|
  {
    seq(|p|, i requires 0 <= i < |p| => PollFd(p[i].fd, readable[i], failed[i]))
  }

  function Least(a: nat, b: nat): nat {
    if a < b then a else b
  }

  function Bans(commands: seq<seq<nat>>): seq<Event> {
    seq(|commands|, i requires 0 <= i < |commands| => Ban(commands[i]))
  }

  // ----- the same, entry by entry -----

  /** idx lists exactly the chosen positions, in ascending order. */
  ghost predicate Selects(idx: seq<nat>, chosen: seq<bool>) {
    && (forall k :: 0 <= k < |idx| ==> idx[k] < |chosen| && chosen[idx[k]])
    && (forall k, l :: 0 <= k < l < |idx| ==> idx[k] < idx[l])
    && (forall i :: 0 <= i < |chosen| && chosen[i] ==> i in idx)
  }

  /** The events are one Hangup for each chosen entry after the first, in the order of the entries. */
  ghost predicate HangUpEach(events: seq<Event>, p: seq<PollFd>, chosen: seq<bool>, idx: seq<nat>)
    requires |chosen| <= |p|
  {
    Selects(idx, chosen) && |events| == |idx| && forall k :: 0 <= k < |idx| ==> events[k] == Hangup(p[idx[k]].fd)
  }

  /** The events are one Data for each chosen entry, with what arrives there, in the order of the entries. */
  ghost predicate ServeEach(events: seq<Event>, p: seq<PollFd>, inputs: seq<Incoming>, chosen: seq<bool>, idx: seq<nat>)
    requires |chosen| <= |p| <= |inputs|
  {
    && Selects(idx, chosen) && |events| == |idx|
    && forall k :: 0 <= k < |idx| ==> events[k] == Data(p[idx[k]].fd, inputs[idx[k]])
  }

  function FailedOf(p: seq<PollFd>): (chosen: seq<bool>)
    ensures |chosen| == |p|
  {
    seq(|p|, i requires 0 <= i < |p| => i > 0 && p[i].failed)
  }

  function ReadableOf(p: seq<PollFd>): (chosen: seq<bool>)
    ensures |chosen| == |p|
  {
    seq(|p|, i requires 0 <= i < |p| => i > 0 && p[i].fd >= 0 && p[i].readable)
  }

  lemma SelectsOneMore(idx: seq<nat>, chosen: seq<bool>, k: nat)
    requires k < |chosen| && Selects(idx, chosen[..k])
    ensures Selects(if chosen[k] then idx + [k] else idx, chosen[..k + 1])
  {
    var longer := if chosen[k] then idx + [k] else idx;
    assert chosen[..k + 1][..k] == chosen[..k];
    forall i | 0 <= i < k + 1 && chosen[..k + 1][i]
      ensures i in longer
    {
      if i < k {
        assert chosen[..k][i] && i in idx;
        var l :| 0 <= l < |idx| && idx[l] == i;
        assert longer[l] == i;
      } else {
        assert longer[|idx|] == i;
      }
    }
  }

  /** Exactly the failed entries are hung up. */
  lemma {:induction false} HangupsSelect(p: seq<PollFd>, k: nat) returns (idx: seq<nat>)
    requires k <= |p|
    ensures HangUpEach(Hangups(p, k), p, FailedOf(p)[..k], idx)
    decreases k
  {
    hide HangUpEach;
    if k == 0 {
      idx := [];
      NoHangUp(p);
    } else {
      var before := HangupsSelect(p, k - 1);
      HangUpOneMore(Hangups(p, k - 1), p, before, k - 1);
      idx := if FailedOf(p)[k - 1] then before + [k - 1] else before;
      assert Hangups(p, k) == Hangups(p, k - 1) + if FailedOf(p)[k - 1] then [Hangup(p[k - 1].fd)] else [];
    }
  }

  lemma NoHangUp(p: seq<PollFd>)
    ensures HangUpEach([], p, FailedOf(p)[..0], [])
  {
  }

  lemma HangUpOneMore(events: seq<Event>, p: seq<PollFd>, idx: seq<nat>, k: nat)
    requires k < |p| && HangUpEach(events, p, FailedOf(p)[..k], idx)
    ensures HangUpEach(events + (if FailedOf(p)[k] then [Hangup(p[k].fd)] else []), p, FailedOf(p)[..k + 1],
                       if FailedOf(p)[k] then idx + [k] else idx)
  {
    hide Selects;
    SelectsOneMore(idx, FailedOf(p), k);
  }

  /** The listening socket's events come before all others. */
  function Accepts(p: seq<PollFd>, accepted: Option<Fd>): seq<Event>
    requires p != []
  {
    if p[0].fd >= 0 && p[0].readable && accepted.Some? then [Accept(accepted.value)] else []
  }

  lemma ServeOneMore(served: seq<Event>, p: seq<PollFd>, inputs: seq<Incoming>, accepted: Option<Fd>, idx: seq<nat>, k: nat)
    requires 1 <= k < |p| <= |inputs| && ServeEach(served, p, inputs, ReadableOf(p)[..k], idx)
    ensures ServeEach(served + EventsAt(p, inputs, accepted, k), p, inputs, ReadableOf(p)[..k + 1],
                      if ReadableOf(p)[k] then idx + [k] else idx)
  {
    SelectsOneMore(idx, ReadableOf(p), k);
    hide Selects;
  }

  lemma OnlyTheListener(p: seq<PollFd>, inputs: seq<Incoming>, accepted: Option<Fd>)
    requires 1 <= |p| <= |inputs|
    ensures Services(p, inputs, accepted, 1) == Accepts(p, accepted) + []
    ensures ServeEach([], p, inputs, ReadableOf(p)[..1], [])
  {
    assert Services(p, inputs, accepted, 0) == [];
    assert ReadableOf(p)[..1][0] == false;
  }

  /** Exactly the readable entries are served, after the listening socket. */
  lemma {:induction false} ServicesSelect(p: seq<PollFd>, inputs: seq<Incoming>, accepted: Option<Fd>, k: nat)
    returns (served: seq<Event>, idx: seq<nat>)
    requires 1 <= k <= |p| <= |inputs|
    ensures Services(p, inputs, accepted, k) == Accepts(p, accepted) + served
    ensures ServeEach(served, p, inputs, ReadableOf(p)[..k], idx)
    decreases k
  {
    hide ServeEach, ReadableOf, EventsAt, Accepts;
    if k == 1 {
      served, idx := [], [];
      OnlyTheListener(p, inputs, accepted);
    } else {
      var before, i := ServicesSelect(p, inputs, accepted, k - 1);
      ServeOneMore(before, p, inputs, accepted, i, k - 1);
      served := before + EventsAt(p, inputs, accepted, k - 1);
      idx := if ReadableOf(p)[k - 1] then i + [k - 1] else i;
    }
  }

  /** The events of the first pass: one hang-up for each entry after the listening socket's that failed. */
  ghost predicate IsErrorPass(events: seq<Event>, p: seq<PollFd>) {
    exists idx :: HangUpEach(events, p, FailedOf(p), idx)
  }

  /** The events of the second: an accept if there was one, and one message for each readable entry. */
  ghost predicate IsReadyPass(events: seq<Event>, p: seq<PollFd>, inputs: seq<Incoming>, accepted: Option<Fd>)
    requires 1 <= |p| <= |inputs|
  {
    exists datas, idx ::
      && ServeEach(datas, p, inputs, ReadableOf(p), idx)
      && events == (if p[0].fd >= 0 && p[0].readable && accepted.Some? then [Accept(accepted.value)] else []) + datas
  }

  lemma PassEvents(p: seq<PollFd>, inputs: seq<Incoming>, accepted: Option<Fd>)
    ensures IsErrorPass(Hangups(p, |p|), p)
    ensures 1 <= |p| <= |inputs| ==> IsReadyPass(Services(p, inputs, accepted, |p|), p, inputs, accepted)
  {
    hide HangUpEach, ServeEach, Hangups, Services;
    var hung := HangupsSelect(p, |p|);
    assert FailedOf(p)[..|p|] == FailedOf(p) && ReadableOf(p)[..|p|] == ReadableOf(p);
    if 1 <= |p| <= |inputs| {
      var datas, served := ServicesSelect(p, inputs, accepted, |p|);
    }
  }

  /** The clients' entries that failed, and those that are readable and did not fail. */
  function FailedEntries(failed: seq<bool>): seq<bool> {
    seq(|failed|, i requires 0 <= i < |failed| => i > 0 && failed[i])
  }

  function ReadyEntries(readable: seq<bool>, failed: seq<bool>): seq<bool>
    requires |readable| == |failed|
  {
    seq(|failed|, i requires 0 <= i < |failed| => i > 0 && readable[i] && !failed[i])
  }

  /**
   * What the events of a turn are: first a hang-up for each entry that failed, then, if the listening
   * socket is readable and accept returned a descriptor, one accept, then for each entry that is readable
   * and did not fail one message handled; all in the order of the entries.
   */
  ghost predicate IsTurn(events: seq<Event>, p: seq<PollFd>, readable: seq<bool>, failed: seq<bool>, inputs: seq<Incoming>, accepted: Option<Fd>)
    requires |p| == |readable| == |failed| == |inputs| && p != []
  {
    exists hangups: seq<Event>, hung: seq<nat>, datas: seq<Event>, served: seq<nat> ::
      && HangUpEach(hangups, p, FailedEntries(failed), hung)
      && ServeEach(datas, p, inputs, ReadyEntries(readable, failed), served)
      && events == hangups + (if readable[0] && accepted.Some? then [Accept(accepted.value)] else []) + datas
  }

  /** Only the descriptors of the entries matter. */
  lemma SameHangUps(events: seq<Event>, p: seq<PollFd>, q: seq<PollFd>, chosen: seq<bool>, idx: seq<nat>)
    requires |chosen| == |p| == |q| && HangUpEach(events, q, chosen, idx) && forall i :: 0 <= i < |p| ==> p[i].fd == q[i].fd
    ensures HangUpEach(events, p, chosen, idx)
  {
  }

  lemma SameServices(events: seq<Event>, p: seq<PollFd>, q: seq<PollFd>, inputs: seq<Incoming>, chosen: seq<bool>, idx: seq<nat>)
    requires |chosen| == |p| == |q| == |inputs| && ServeEach(events, q, inputs, chosen, idx)
    requires forall i :: 0 <= i < |p| && chosen[i] ==> p[i].fd == q[i].fd
    ensures ServeEach(events, p, inputs, chosen, idx)
  {
  }

  lemma TurnEvents(p: seq<PollFd>, readable: seq<bool>, failed: seq<bool>, inputs: seq<Incoming>, accepted: Option<Fd>)
    requires |p| == |readable| == |failed| == |inputs| && p != [] && forall i :: 0 <= i < |p| ==> p[i].fd >= 0
    ensures var q := Polled(p, readable, failed);
            IsTurn(Hangups(q, |q|) + Services(Surviving(q), inputs, accepted, |q|), p, readable, failed, inputs, accepted)
  {
    hide HangUpEach, ServeEach, Hangups, Services;
    var q := Polled(p, readable, failed);
    var r := Surviving(q);
    var hung := HangupsSelect(q, |q|);
    var datas, served := ServicesSelect(r, inputs, accepted, |r|);
    assert FailedOf(q)[..|q|] == FailedEntries(failed);
    assert ReadableOf(r)[..|r|] == ReadyEntries(readable, failed);
    SameHangUps(Hangups(q, |q|), p, q, FailedEntries(failed), hung);
    SameServices(datas, p, r, inputs, ReadyEntries(readable, failed), served);
    var first := if readable[0] && accepted.Some? then [Accept(accepted.value)] else [];
    assert Accepts(r, accepted) == first;
    assert Hangups(q, |q|) + (first + datas) == Hangups(q, |q|) + first + datas;
  }

  /** One activation of ServerViewModel::run. */
  class PollLoop {
    const server: ServerViewModel
    const listenFd: Fd
    var pollFds: seq<PollFd>
    ghost var history: Run

    ghost predicate Recorded()
      reads this, server, server.registry, server.transport
    {
      IsRun(history) && history.states[|history.events|] == server.View()
    }

    ghost function Fds(): set<Fd>
      reads server.registry
    {
      server.registry.clientsByFd.Keys
    }

    /** What holds whenever control is at the head of the loop. */
    ghost predicate AtLoopHead()
      reads this, server, server.registry, server.transport
    {
      Recorded() && Agrees(pollFds, listenFd, Fds())
    }

    constructor (listenFd: Fd)
      requires listenFd >= 0
      ensures AtLoopHead() && fresh(server) && fresh(server.registry) && fresh(server.transport)
    {
      server := new ServerViewModel();
      this.listenFd := listenFd;
      pollFds := [PollFd(listenFd, false, false)];
      history := Run([Initial()], []);
    }

    // ----- the server's steps, recorded -----

    method HangUp(fd: Fd)
      requires Recorded() && fd in Fds()
      modifies this`history, server, server.registry, server.transport
      ensures Recorded() && Fds() == old(Fds()) - {fd} && history.events == old(history.events) + [Hangup(fd)]
      ensures server.View() == Removed(old(server.View()), fd)
    {
      ghost var s := server.View();
      ReachesValid(history, |history.events|);
      server.RemoveClient(fd);
      Extends(history, s, Hangup(fd), server.View());
      history := Run(history.states + [server.View()], history.events + [Hangup(fd)]);
    }

    method Connect(fd: Fd)
      requires Recorded() && fd >= 0 && fd !in Fds() && HasSpareId(server.View())
      modifies this`history, server, server.registry, server.transport
      ensures Recorded() && Fds() == old(Fds()) + {fd} && history.events == old(history.events) + [Accept(fd)]
    {
      ghost var s := server.View();
      ReachesValid(history, |history.events|);
      server.AcceptClient(fd);
      Extends(history, s, Accept(fd), server.View());
      history := Run(history.states + [server.View()], history.events + [Accept(fd)]);
    }

    method Receive(fd: Fd, incoming: Incoming)
      requires Recorded() && fd in Fds() && CanArrive(incoming)
      modifies this`history, server, server.registry, server.transport
      ensures Recorded() && (Fds() == old(Fds()) || Fds() == old(Fds()) - {fd})
      ensures history.events == old(history.events) + [Data(fd, incoming)]
    {
      ghost var s := server.View();
      ReachesValid(history, |history.events|);
      server.HandleClientData(fd, incoming);
      KeysAfterData(s, fd, incoming);
      Extends(history, s, Data(fd, incoming), server.View());
      history := Run(history.states + [server.View()], history.events + [Data(fd, incoming)]);
    }

    /** ban_ids; if it throws, the ids are banned but nobody has been told or shut down, and no step is recorded. */
    method BanAll(ids: seq<nat>) returns (thrown: Option<seq<Byte>>)
      requires Recorded() && AreIds(ids)
      modifies this`history, server, server.transport
      ensures Fds() == old(Fds()) && IsRun(history)
      ensures thrown.Some? <==> |NewlyBanned(ids, old(server.View()).banned)| > MAX_U16_COUNT
      ensures if thrown.None? then Recorded() && history.events == old(history.events) + [Ban(ids)]
              else history == old(history) && server.View() == Marked(old(server.View()), ids)
    {
      hide NewlyBanned, NonZero;
      ghost var s := server.View();
      ReachesValid(history, |history.events|);
      thrown := server.BanIds(ids);
      if thrown.None? {
        Extends(history, s, Ban(ids), server.View());
        history := Run(history.states + [server.View()], history.events + [Ban(ids)]);
      }
    }

    /**
     * process_admin_queue, after the lines have been parsed: the commands are carried out in order, up to
     * the first one with more new ids than BannedIds can count. That one bans its ids, tells nobody,
     * shuts nobody down and throws, which ends run.
     */
    method ProcessAdminQueue(commands: seq<seq<nat>>) returns (thrown: Option<seq<Byte>>, done: nat)
      requires AtLoopHead() && forall i :: 0 <= i < |commands| ==> AreIds(commands[i])
      modifies this`history, server, server.transport
      ensures IsRun(history) && done <= |commands| && history.events == old(history.events) + Bans(commands[..done])
      ensures |history.events| == |old(history.events)| + done
      ensures forall i :: 0 <= i < done ==> history.events[|old(history.events)| + i] == Ban(commands[i])
      ensures thrown.None? <==> done == |commands|
      ensures thrown.None? ==> AtLoopHead()
      ensures thrown.Some? ==>
                var s := history.states[|history.events|];
                |NewlyBanned(commands[done], s.banned)| > MAX_U16_COUNT && server.View() == Marked(s, commands[done])
    {
      hide IsRun, Lists, NewlyBanned, BanApplied;
      done, thrown := 0, None;
      while done < |commands|
        invariant AtLoopHead() && done <= |commands| && history.events == old(history.events) + Bans(commands[..done])
      {
        thrown := BanAll(commands[done]);
        if thrown.Some? {
          return;
        }
        assert Bans(commands[..done + 1]) == Bans(commands[..done]) + [Ban(commands[done])];
        done := done + 1;
      }
      thrown := None;
    }

    // ----- one turn -----

    /** The first pass: clients whose connection failed are removed and crossed out. */
    method ErrorPass()
      requires AtLoopHead()
      modifies this, server, server.registry, server.transport
      ensures Recorded() && pollFds == Surviving(old(pollFds)) && Lists(pollFds, Fds())
      ensures history.events == old(history.events) + Hangups(old(pollFds), |old(pollFds)|)
      ensures IsErrorPass(history.events[|old(history.events)|..], old(pollFds))
      ensures Fds() <= old(Fds()) && (HasSpareId(old(server.View())) ==> HasSpareId(server.View()))
    {
      hide IsRun, Listed, HasSpareId, Lists, Removed, IsErrorPass;
      PassEvents(pollFds, [], None);
      for i := 1 to |pollFds|
        invariant Recorded() && |pollFds| == |old(pollFds)| && Lists(pollFds, Fds())
        invariant forall j :: 0 <= j < i ==> pollFds[j] == Surviving(old(pollFds))[j]
        invariant forall j :: i <= j < |pollFds| ==> pollFds[j] == old(pollFds)[j]
        invariant history.events == old(history.events) + Hangups(old(pollFds), i)
        invariant Fds() <= old(Fds()) && (HasSpareId(old(server.View())) ==> HasSpareId(server.View()))
      {
        if pollFds[i].failed {
          SpareAfterRemoval(server.View(), pollFds[i].fd);
          CrossingOut(pollFds, Fds(), i);
          HangUp(pollFds[i].fd);
          pollFds := CrossedOut(pollFds, i);
        }
      }
      assert history.events[|old(history.events)|..] == Hangups(old(pollFds), |old(pollFds)|);
    }

    /** A message is handled; if it ended its sender's connection, the entry is crossed out. */
    method ServeEntry(i: nat, incoming: Incoming)
      requires Recorded() && Lists(pollFds, Fds()) && 1 <= i < |pollFds| && pollFds[i].fd >= 0 && CanArrive(incoming)
      modifies this, server, server.registry, server.transport
      ensures Recorded() && Lists(pollFds, Fds()) && Fds() <= old(Fds())
      ensures history.events == old(history.events) + [Data(old(pollFds)[i].fd, incoming)]
      ensures pollFds == old(pollFds) || pollFds == CrossedOut(old(pollFds), i)
    {
      var fd := pollFds[i].fd;
      CrossingOut(pollFds, Fds(), i);
      hide Lists, IsRun, CanArrive;
      Receive(fd, incoming);
      if fd !in server.registry.clientsByFd {
        pollFds := CrossedOut(pollFds, i);
      }
    }

    /** accept_client: a new connection gets an entry at the end. */
    method AcceptEntry(fd: Fd)
      requires Recorded() && Lists(pollFds, Fds()) && |pollFds| >= 1
      requires fd >= 0 && fd != listenFd && fd !in Fds() && HasSpareId(server.View())
      modifies this, server, server.registry, server.transport
      ensures Recorded() && Lists(pollFds, Fds()) && Fds() == old(Fds()) + {fd}
      ensures history.events == old(history.events) + [Accept(fd)]
      ensures pollFds == old(pollFds) + [PollFd(fd, false, false)]
    {
      Appending(pollFds, Fds(), PollFd(fd, false, false));
      hide Lists, IsRun, HasSpareId;
      Connect(fd);
      pollFds := pollFds + [PollFd(fd, false, false)];
    }

    /** The second pass: new connections are accepted and messages handled, in the order of the vector. */
    method ReadyPass(inputs: seq<Incoming>, accepted: Option<Fd>)
      requires Recorded() && 1 <= |pollFds| <= |inputs| && Lists(pollFds, Fds())
      requires pollFds[0].fd == listenFd >= 0 && listenFd !in Fds()
      requires forall i :: 0 <= i < |inputs| ==> CanArrive(inputs[i])
      requires accepted.Some? ==>
                 accepted.value >= 0 && accepted.value != listenFd && accepted.value !in Fds() && HasSpareId(server.View())
      modifies this, server, server.registry, server.transport
      ensures Recorded() && |pollFds| >= 1 && Lists(pollFds, Fds())
      ensures pollFds[0].fd == listenFd && listenFd !in Fds()
      ensures history.events == old(history.events) + Services(old(pollFds), inputs, accepted, |old(pollFds)|)
      ensures IsReadyPass(history.events[|old(history.events)|..], old(pollFds), inputs, accepted)
    {
      hide IsRun, Lists, HasSpareId, CanArrive, Services, IsReadyPass, IsErrorPass;
      ghost var p := pollFds;
      PassEvents(p, inputs, accepted);
      NothingServed(p, inputs, accepted);
      var i := 0;
      while i < |pollFds|
        invariant Recorded() && |pollFds| >= |p| && Lists(pollFds, Fds())
        invariant pollFds[0] == p[0] && listenFd !in Fds()
        invariant i == 0 ==> server.View() == old(server.View()) && pollFds == p
        invariant history.events == old(history.events) + Services(p, inputs, accepted, Least(i, |p|))
        invariant forall j :: i <= j < |p| ==> pollFds[j] == p[j]
        invariant forall j :: |p| <= j < |pollFds| ==> !pollFds[j].readable
        decreases i == 0, |pollFds| - i
      {
        if i < |p| {
          OneMoreServed(p, inputs, accepted, i);
        }
        if pollFds[i].fd >= 0 && pollFds[i].readable {
          if pollFds[i].fd == listenFd {
            OnlyOneListens(pollFds, Fds(), i, listenFd);
            if accepted.Some? {
              AcceptEntry(accepted.value);
            }
          } else {
            ServeEntry(i, inputs[i]);
          }
        }
        i := i + 1;
      }
      assert history.events[|old(history.events)|..] == Services(p, inputs, accepted, |p|);
    }

    method EraseCrossedOut()
      modifies this`pollFds
      ensures pollFds == Kept(old(pollFds))
    {
      var kept: seq<PollFd> := [];
      for i := 0 to |pollFds|
        invariant kept == Kept(pollFds[..i])
      {
        assert pollFds[..i + 1][..i] == pollFds[..i];
        if pollFds[i].fd >= 0 {
          kept := kept + [pollFds[i]];
        }
      }
      assert pollFds[..|pollFds|] == pollFds;
      pollFds := kept;
    }

    /** What poll reports about each entry. */
    method Poll(readable: seq<bool>, failed: seq<bool>)
      requires |readable| == |failed| == |pollFds|
      modifies this`pollFds
      ensures pollFds == Polled(old(pollFds), readable, failed)
    {
      pollFds := Polled(pollFds, readable, failed);
    }

    /**
     * One turn of the loop after the admin queue, whatever poll reports, whatever arrives and in whatever
     * order the hash maps are walked. accept may hand out the descriptor of a connection that failed in
     * this very turn.
     */
    method Turn(readable: seq<bool>, failed: seq<bool>, inputs: seq<Incoming>, accepted: Option<Fd>)
      requires AtLoopHead() && |readable| == |failed| == |inputs| == |pollFds|
      requires forall i :: 0 <= i < |inputs| ==> CanArrive(inputs[i])
      requires accepted.Some? ==>
                 && accepted.value >= 0 && accepted.value != listenFd && HasSpareId(server.View())
                 && forall i :: 1 <= i < |pollFds| && pollFds[i].fd == accepted.value ==> failed[i]
      modifies this, server, server.registry, server.transport
      ensures AtLoopHead()
      ensures var p := Polled(old(pollFds), readable, failed);
              history.events == old(history.events) + Hangups(p, |p|) + Services(Surviving(p), inputs, accepted, |p|)
      ensures old(history.events) <= history.events
      ensures IsTurn(history.events[|old(history.events)|..], old(pollFds), readable, failed, inputs, accepted)
    {
      hide IsRun, Lists, HasSpareId, CanArrive, Hangups, Services, IsTurn, IsErrorPass, IsReadyPass;
      ghost var before := pollFds;
      TurnEvents(before, readable, failed, inputs, accepted);
      Poll(readable, failed);
      SameDescriptors(before, pollFds, Fds());
      ErrorPass();
      if accepted.Some? {
        ClosedAgain(before, failed, pollFds, Fds(), accepted.value);
      }
      ReadyPass(inputs, accepted);
      KeptAgrees(pollFds, Fds());
      EraseCrossedOut();
      ghost var p := Polled(before, readable, failed);
      ghost var added := Hangups(p, |p|) + Services(Surviving(p), inputs, accepted, |p|);
      assert history.events[|old(history.events)|..] == added;
    }
  }

  lemma OnlyOneListens(p: seq<PollFd>, fds: set<Fd>, i: nat, listenFd: Fd)
    requires Lists(p, fds) && i < |p| && p[i].fd == listenFd >= 0 && listenFd !in fds
    ensures i == 0
  {
  }

  lemma SameDescriptors(p: seq<PollFd>, q: seq<PollFd>, fds: set<Fd>)
    requires Lists(p, fds) && |q| == |p| && forall i :: 0 <= i < |p| ==> q[i].fd == p[i].fd
    ensures Lists(q, fds)
  {
    forall fd | fd in fds
      ensures Listed(q, fd)
    {
      var j :| 1 <= j < |p| && p[j].fd == fd;
      assert q[j].fd == fd;
    }
  }

  /** After the error pass no connection on a failed descriptor is left. */
  lemma ClosedAgain(before: seq<PollFd>, failed: seq<bool>, after: seq<PollFd>, fds: set<Fd>, fd: Fd)
    requires |before| == |failed| == |after| && Lists(after, fds) && fd >= 0
    requires forall i :: 1 <= i < |before| && before[i].fd == fd ==> failed[i]
    requires forall i :: 1 <= i < |after| ==> after[i].fd == -1 || (after[i].fd == before[i].fd && !failed[i])
    ensures fd !in fds
  {
    assert !Listed(after, fd);
  }

  /** The ids of a ban command are uint32_t values. */
  predicate AreIds(ids: seq<nat>) {
    forall i :: 0 <= i < |ids| ==> ids[i] < U32_LIMIT
  }

  lemma SpareAfterRemoval(s: Server, fd: Fd)
    ensures HasSpareId(s) ==> HasSpareId(Removed(s, fd))
  {
    if id: nat :| 1 <= id <= MAX_CLIENT_ID && id !in s.reg.fdById && id !in s.banned {
      assert id !in Removed(s, fd).reg.fdById;
    }
  }

  /** A message changes the set of connections at most by ending its sender's. */
  lemma KeysAfterData(s: Server, fd: Fd, incoming: Incoming)
    requires Valid(s) && Enabled(s, Data(fd, incoming))
    ensures var keys := Step(s, Data(fd, incoming)).reg.clients.Keys;
            keys == s.reg.clients.Keys || keys == s.reg.clients.Keys - {fd}
  {
    var e := Data(fd, incoming);
    if !Removes(s, e) && !GivesNickname(s, e) {
      DispatchOrigin(s, e, fd);
    }
  }
}
