/** What a client forgets when the administrator bans an id. */
module ClientBans {
  import opened Bytes
  import opened Messages
  import opened Registry
  import opened Server
  import opened ServerSends
  import opened ServerRuns
  import opened Client

  predicate Announces(m: AppMessage, x: nat) {
    m.BannedIds? && x in m.ids
  }

  /** After an announcement that x is banned, the stream never carries a key or text of x again. */
  ghost predicate BansHold(ms: seq<AppMessage>, banned: set<nat>) {
    && (forall i, x :: 0 <= i < |ms| && Announces(ms[i], x) ==> x in banned)
    && (forall i, j, x :: 0 <= i < j < |ms| && Announces(ms[i], x) ==> Ignores(ms[j], x))
  }

  ghost predicate BanStreamInv(s: Server) {
    forall g :: g in s.outbox ==> BansHold(s.outbox[g], s.banned)
  }

  /** Whatever a step hands to g, it hands in silence about the ids that are banned already. */
  lemma StepIsSilent(s: Server, e: Event, s': Server, g: Fd, x: nat) returns (ms: seq<AppMessage>)
    requires Link(s, e, s') && g in s'.outbox && x in s.banned
    ensures s'.outbox[g] == Before(s, e, g) + ms && forall i :: 0 <= i < |ms| ==> Ignores(ms[i], x)
  {
    hide Origin, Ignores;
    assert HandsOne(s, e, s', g);
    if m :| Hands(s, e, s', g, [m]) && Origin(s, e, s', g, m) {
      ms := [m];
    } else {
      ms := [];
    }
    BannedStepIsSilent(s, e, s', g, x, ms);
  }

  lemma StepKeepsBanStream(s: Server, e: Event, s': Server, g: Fd)
    requires Link(s, e, s') && BanStreamInv(s) && g in s'.outbox
    ensures BansHold(s'.outbox[g], s'.banned)
  {
    hide Ignores, HandsOne, Origin, BansHold, BanStreamInv, Announces;
    BansOnlyAdd(s, e, s');
    LinkHands(s, e, s', g);
    var ms := Before(s, e, g);
    StreamBefore(s, e, g);
    if m :| Hands(s, e, s', g, [m]) && Origin(s, e, s', g, m) {
      AnnouncedIsBanned(s, e, s', g, m);
      forall x | x in s.banned
        ensures Ignores(m, x)
      {
        BannedStepIsSilent(s, e, s', g, x, [m]);
        assert [m][0] == m;
      }
      AppendKeepsBans(ms, s.banned, m, s'.banned);
    } else {
      assert s'.outbox[g] == ms;
      SameBansHold(ms, s.banned, s'.banned);
    }
  }

  lemma BansOnlyAdd(s: Server, e: Event, s': Server)
    requires Link(s, e, s')
    ensures s.banned <= s'.banned
  {
    hide HandsOne, AcceptEffect, RemoveEffect, NicknameEffect;
  }

  lemma LinkHands(s: Server, e: Event, s': Server, g: Fd)
    requires Link(s, e, s') && g in s'.outbox
    ensures g in s'.reg.clients
    ensures Hands(s, e, s', g, []) || exists m :: Hands(s, e, s', g, [m]) && Origin(s, e, s', g, m)
  {
    hide Effect, Origin;
    LinkHandsOne(s, e, s', g);
  }

  lemma AnnouncedIsBanned(s: Server, e: Event, s': Server, g: Fd, m: AppMessage)
    requires Link(s, e, s') && Origin(s, e, s', g, m)
    ensures forall x :: Announces(m, x) ==> x in s'.banned
  {
    hide Effect;
  }

  lemma SameBansHold(ms: seq<AppMessage>, banned: set<nat>, banned': set<nat>)
    requires BansHold(ms, banned) && banned <= banned'
    ensures BansHold(ms, banned')
  {
  }

  lemma StreamBefore(s: Server, e: Event, g: Fd)
    requires BanStreamInv(s)
    ensures BansHold(Before(s, e, g), s.banned)
  {
  }

  lemma AppendKeepsBans(ms: seq<AppMessage>, banned: set<nat>, m: AppMessage, banned': set<nat>)
    requires BansHold(ms, banned) && banned <= banned'
    requires forall x :: x in banned ==> Ignores(m, x)
    requires forall x :: Announces(m, x) ==> x in banned'
    ensures BansHold(ms + [m], banned')
  {
  }

  lemma {:induction false} ReachesBanStreams(r: Run, j: nat)
    requires IsRun(r) && j < |r.states|
    ensures BanStreamInv(r.states[j])
  {
    hide BansHold, Effect, Follows;
    if j > 0 {
      ReachesBanStreams(r, j - 1);
      RunIsHistory(r);
      assert Link(r.states[j - 1], r.events[j - 1], r.states[j]);
      forall g | g in r.states[j].outbox
        ensures BansHold(r.states[j].outbox[g], r.states[j].banned)
      {
        StepKeepsBanStream(r.states[j - 1], r.events[j - 1], r.states[j], g);
      }
    }
  }

  // ----- a ban the client is told of -----

  lemma {:induction false} ForgottenStays(saved: map<nat, seq<Byte>>, ms: seq<AppMessage>, banned: set<nat>, i: nat, k: nat, x: nat)
    requires BansHold(ms, banned) && i < k <= |ms| && Announces(ms[i], x)
    ensures x !in PeersAfter(saved, ms[..k])
    decreases k
  {
    assert ms[..k][..k - 1] == ms[..k - 1];
    if i < k - 1 {
      ForgottenStays(saved, ms, banned, i, k - 1, x);
      assert Ignores(ms[k - 1], x);
    }
  }

  /**
   * Once a client has consumed a BannedIds naming x, x is not among its peer keys, whatever keys it had
   * saved before it connected and however many more messages of the connection it consumes.
   */
  lemma BannedPeerStaysForgotten(saved: map<nat, seq<Byte>>, r: Run, j: nat, g: Fd, i: nat, k: nat, x: nat)
    requires IsRun(r) && j < |r.states| && g in r.states[j].outbox
    requires i < k <= |r.states[j].outbox[g]| && Announces(r.states[j].outbox[g][i], x)
    ensures x !in PeersAfter(saved, r.states[j].outbox[g][..k])
  {
    ReachesBanStreams(r, j);
    ForgottenStays(saved, r.states[j].outbox[g], r.states[j].banned, i, k, x);
  }

  // ----- a ban from before the client connected -----

  /** The connection accepted on g in step i is open up to state j. */
  ghost predicate Connected(r: Run, i: nat, j: nat, g: Fd)
    requires i < |r.events| && j < |r.states|
  {
    r.events[i] == Accept(g) && forall l :: i < l <= j ==> g in r.states[l].reg.clients
  }

  lemma NoSecondAccept(s: Server, e: Event, s': Server, g: Fd)
    requires Link(s, e, s') && g in s.reg.clients && g in s'.reg.clients
    ensures Before(s, e, g) == s.outbox[g]
  {
  }

  lemma {:induction false} EarlierBanIsSilent(r: Run, i: nat, j: nat, g: Fd, x: nat)
    requires IsRun(r) && i < j < |r.states| && x in r.states[i].banned && Connected(r, i, j, g)
    ensures g in r.states[j].outbox && forall k :: 0 <= k < |r.states[j].outbox[g]| ==> Ignores(r.states[j].outbox[g][k], x)
    decreases j
  {
    hide Effect, Ignores, Follows;
    RunIsHistory(r);
    BansOnlyGrow(r, i, j - 1);
    var s, e, s' := r.states[j - 1], r.events[j - 1], r.states[j];
    assert Link(s, e, s') && g in s'.reg.clients;
    var ms := StepIsSilent(s, e, s', g, x);
    if i < j - 1 {
      EarlierBanIsSilent(r, i, j - 1, g, x);
      NoSecondAccept(s, e, s', g);
    }
  }

  lemma {:induction false} IgnoredKeepsPeers(saved: map<nat, seq<Byte>>, ms: seq<AppMessage>, x: nat)
    requires forall k :: 0 <= k < |ms| ==> Ignores(ms[k], x)
    ensures x in PeersAfter(saved, ms) <==> x in saved
    ensures x in saved ==> PeersAfter(saved, ms)[x] == saved[x]
    decreases |ms|
  {
    if ms != [] {
      IgnoredKeepsPeers(saved, ms[..|ms| - 1], x);
      assert Ignores(ms[|ms| - 1], x);
    }
  }

  /**
   * A client that connects after x was banned is not told of the ban: it goes on holding the key of x if
   * and only if it had saved one, throughout the connection.
   */
  lemma EarlierBanKeepsSavedKey(saved: map<nat, seq<Byte>>, r: Run, i: nat, j: nat, g: Fd, k: nat, x: nat)
    requires IsRun(r) && i < j < |r.states| && x in r.states[i].banned && Connected(r, i, j, g)
    requires g in r.states[j].outbox && k <= |r.states[j].outbox[g]|
    ensures var peers := PeersAfter(saved, r.states[j].outbox[g][..k]);
            (x in peers <==> x in saved) && (x in saved ==> peers[x] == saved[x])
  {
    hide Ignores, Follows;
    EarlierBanIsSilent(r, i, j, g, x);
    IgnoredKeepsPeers(saved, r.states[j].outbox[g][..k], x);
  }
}
