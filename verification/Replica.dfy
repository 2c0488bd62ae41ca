/** What a client's copies of server state are worth, message by message. */
module Replica {
  import opened Bytes
  import opened Messages
  import opened Registry
  import opened Server
  import opened ServerSends
  import opened ServerRuns
  import opened Client

  type NameMap = map<nat, seq<Byte>>

  predicate HasList(ms: seq<AppMessage>) {
    exists i :: 0 <= i < |ms| && ms[i].UsersList?
  }

  /**
   * The copy v of client `own` against the registry's view: never wrong about another client, and
   * complete once a UsersList has been consumed. The client's own entry comes from lists only.
   */
  ghost predicate Mirrors(v: NameMap, names: NameMap, own: nat, listed: bool) {
    && (forall id :: id in v && id != own ==> id in names && v[id] == names[id])
    && (own in v ==> listed)
    && (listed ==> own in v && forall id :: id in names ==> id in v)
  }

  ghost predicate MirrorInv(s: Server) {
    && s.reg.ValidIds() && s.outbox.Keys == s.reg.clients.Keys
    && forall g :: g in s.reg.clients && !Muted(s, g) ==>
         Mirrors(ViewAfter(s.outbox[g]).nicknameById, s.reg.Names(), s.reg.clients[g].id, HasList(s.outbox[g]))
  }

  lemma ViewAfterAppend(ms: seq<AppMessage>, m: AppMessage)
    ensures ViewAfter(ms + [m]) == Observed(ViewAfter(ms), m)
    ensures HasList(ms + [m]) <==> HasList(ms) || m.UsersList?
  {
    assert (ms + [m])[..|ms|] == ms;
    if HasList(ms) {
      var i :| 0 <= i < |ms| && ms[i].UsersList?;
      assert (ms + [m])[i].UsersList?;
    }
    if m.UsersList? {
      assert (ms + [m])[|ms|].UsersList?;
    }
  }

  /** m' is m with exactly the listed entries overwritten. */
  ghost predicate Overwrites(m: NameMap, users: seq<UserInfo>, m': NameMap) {
    && (forall i :: 0 <= i < |users| ==> users[i].id in m' && m'[users[i].id] == users[i].nickname)
    && (forall id :: id in m' ==> (exists i :: 0 <= i < |users| && users[i].id == id) || (id in m && m'[id] == m[id]))
    && (forall id :: id in m ==> id in m')
  }

  lemma OverwriteOne(m: NameMap, users: seq<UserInfo>, m': NameMap, user: UserInfo)
    requires Overwrites(m, users, m') && forall i :: 0 <= i < |users| ==> users[i].id != user.id
    ensures Overwrites(m, users + [user], m'[user.id := user.nickname])
  {
    var all, m2 := users + [user], m'[user.id := user.nickname];
    assert all[|users|] == user;
    forall id | id in m2
      ensures (exists i :: 0 <= i < |all| && all[i].id == id) || (id in m && m2[id] == m[id])
    {
      if i :| 0 <= i < |users| && users[i].id == id {
        assert all[i].id == id;
      }
    }
  }

  /** Applying a list with distinct ids overwrites exactly the listed entries. */
  lemma {:induction false} AllNamedEntries(v: View, users: seq<UserInfo>)
    requires forall i, j :: 0 <= i < j < |users| ==> users[i].id < users[j].id
    ensures Overwrites(v.nicknameById, users, AllNamed(v, users).nicknameById)
    decreases |users|
  {
    if users != [] {
      var front, last := users[..|users| - 1], users[|users| - 1];
      AllNamedEntries(v, front);
      assert users == front + [last];
      hide Overwrites;
      OverwriteOne(v.nicknameById, front, AllNamed(v, front).nicknameById, last);
    }
  }

  lemma ListMirrors(v: View, names: NameMap, own: nat, listed: bool)
    requires Mirrors(v.nicknameById, names, own, listed) && own in names
    ensures Mirrors(AllNamed(v, SortedUsers(names)).nicknameById, names, own, true)
  {
    SortedUsersContents(names);
    AllNamedEntries(v, SortedUsers(names));
  }

  lemma JoinMirrors(v: View, names: NameMap, own: nat, listed: bool, id: nat, nickname: seq<Byte>)
    requires Mirrors(v.nicknameById, names, own, listed) && id != own
    ensures Mirrors(Observed(v, UserJoined(id, nickname)).nicknameById, names[id := nickname], own, listed)
  {
  }

  lemma LeaveMirrors(v: View, names: NameMap, own: nat, listed: bool, id: nat, nickname: seq<Byte>)
    requires Mirrors(v.nicknameById, names, own, listed) && id != own
    ensures Mirrors(Observed(v, UserLeft(id, nickname)).nicknameById, names - {id}, own, listed)
  {
  }

  /** One message keeps the copy in step with one change of the registry. */
  lemma MessageMirrors(s: Server, e: Event, s': Server, g: Fd, v: View, listed: bool, m: AppMessage)
    requires s.reg.ValidIds() && s'.reg.ValidIds() && Effect(s, e, s')
    requires g in s.reg.clients && g in s'.reg.clients && !Muted(s, g)
    requires Hands(s, e, s', g, [m]) && Origin(s, e, s', g, m)
    requires Mirrors(v.nicknameById, s.reg.Names(), s.reg.clients[g].id, listed)
    ensures Mirrors(Observed(v, m).nicknameById, s'.reg.Names(), s.reg.clients[g].id, listed || m.UsersList?)
  {
    var own := s.reg.clients[g].id;
    assert own in s.reg.Names();
    if m.UsersList? {
      ListMirrors(v, s.reg.Names(), own, listed);
    } else if m.UserJoined? {
      JoinChanges(s, e, s', g, m.id, m.nickname);
      JoinMirrors(v, s.reg.Names(), own, listed, m.id, m.nickname);
    } else if m.UserLeft? {
      LeaveChanges(s, e, s', g, m.id, m.nickname);
      LeaveMirrors(v, s.reg.Names(), own, listed, m.id, m.nickname);
    } else {
      SilenceMirrors(s, e, s', g, v.nicknameById, listed, [m]);
    }
  }

  /** Without news, at most the client's own entry changed. */
  lemma SilenceMirrors(s: Server, e: Event, s': Server, g: Fd, v: NameMap, listed: bool, ms: seq<AppMessage>)
    requires s.reg.ValidIds() && s'.reg.ValidIds() && Effect(s, e, s')
    requires g in s.reg.clients && g in s'.reg.clients && !Muted(s, g) && Hands(s, e, s', g, ms)
    requires forall m :: m in ms ==> !m.UserJoined? && !m.UserLeft?
    requires Mirrors(v, s.reg.Names(), s.reg.clients[g].id, listed)
    ensures Mirrors(v, s'.reg.Names(), s.reg.clients[g].id, listed)
  {
    NoNewsNoChange(s, e, s', g, ms);
  }

  lemma StepMirrors(s: Server, e: Event, s': Server)
    requires Valid(s) && Valid(s') && Effect(s, e, s') && MirrorInv(s)
    ensures MirrorInv(s')
  {
    forall g | g in s'.reg.clients && !Muted(s', g)
      ensures Mirrors(ViewAfter(s'.outbox[g]).nicknameById, s'.reg.Names(), s'.reg.clients[g].id, HasList(s'.outbox[g]))
    {
      MirrorsOne(s, e, s', g);
    }
  }

  lemma FreshMirror(s: Server, s': Server, g: Fd)
    requires s.reg.ValidIds() && s'.reg.ValidIds() && s'.outbox.Keys == s'.reg.clients.Keys
    requires Effect(s, Accept(g), s') && g in s'.reg.clients
    ensures Mirrors(ViewAfter(s'.outbox[g]).nicknameById, s'.reg.Names(), s'.reg.clients[g].id, HasList(s'.outbox[g]))
  {
    hide Effect;
    FreshOutbox(s, s', g);
    var first := AssignId(s'.reg.clients[g].id, s.reg.clients == map[]);
    assert s'.outbox[g] == [] + [first];
    ViewAfterAppend([], first);
  }

  lemma MirrorsOne(s: Server, e: Event, s': Server, g: Fd)
    requires s'.reg.ValidIds() && s'.outbox.Keys == s'.reg.clients.Keys
    requires MirrorInv(s) && Effect(s, e, s') && g in s'.reg.clients && !Muted(s', g)
    ensures Mirrors(ViewAfter(s'.outbox[g]).nicknameById, s'.reg.Names(), s'.reg.clients[g].id, HasList(s'.outbox[g]))
  {
    hide ViewAfter, Origin, Mirrors, Effect, HasList;
    if e == Accept(g) {
      FreshMirror(s, s', g);
    } else {
      WasThere(s, e, s', g);
      var ms := s.outbox[g];
      var v := ViewAfter(ms);
      LinkHandsOne(s, e, s', g);
      StepKeepsId(s, e, s', g);
      NotMutedBefore(s, e, s', g);
      if m :| Hands(s, e, s', g, [m]) && Origin(s, e, s', g, m) {
        ViewAfterAppend(ms, m);
        MessageMirrors(s, e, s', g, v, HasList(ms), m);
      } else {
        assert s'.outbox[g] == ms;
        SilenceMirrors(s, e, s', g, v.nicknameById, HasList(ms), []);
      }
    }
  }

  lemma NotMutedBefore(s: Server, e: Event, s': Server, g: Fd)
    requires s.reg.ValidIds() && s'.reg.ValidIds() && Effect(s, e, s')
    requires g in s.reg.clients && g in s'.reg.clients && !Muted(s', g)
    ensures !Muted(s, g)
  {
    hide HandsOne;
    StepKeepsId(s, e, s', g);
  }

  /** In every reachable state, a client that is not banned and has consumed all its messages mirrors the registry. */
  lemma {:induction false} ReachesMirror(r: Run, j: nat)
    requires IsRun(r) && j < |r.states|
    ensures MirrorInv(r.states[j])
  {
    hide Effect, Follows, Valid, Mirrors;
    if j > 0 {
      ReachesMirror(r, j - 1);
      RunEffect(r, j - 1);
      StepMirrors(r.states[j - 1], r.events[j - 1], r.states[j]);
    }
  }

  /** ms are all the messages of the connection on g in the i-th state, and the step before emitted the last. */
  ghost predicate JustSent(r: Run, i: nat, g: Fd, id: nat, ms: seq<AppMessage>)
    requires |r.states| == |r.events| + 1
  {
    && 1 <= i < |r.states| && ms != []
    && g in r.states[i].reg.clients && r.states[i].reg.clients[g].id == id
    && g in r.states[i].outbox && r.states[i].outbox[g] == ms
    && Hands(r.states[i - 1], r.events[i - 1], r.states[i], g, [ms[|ms| - 1]])
  }

  /** Every non-empty beginning of a connection's messages was all of them right after some step. */
  lemma {:induction false} PrefixHistory(r: Run, j: nat, g: Fd, ms: seq<AppMessage>) returns (i: nat)
    requires IsHistory(r) && j < |r.states| && g in r.states[j].reg.clients && g in r.states[j].outbox
    requires ms != [] && ms <= r.states[j].outbox[g]
    ensures i <= j && JustSent(r, i, g, r.states[j].reg.clients[g].id, ms)
    decreases j
  {
    assert Link(r.states[j - 1], r.events[j - 1], r.states[j]);
    PrefixStep(r.states[j - 1], r.events[j - 1], r.states[j], g, ms);
    if |Before(r.states[j - 1], r.events[j - 1], g)| < |ms| {
      i := j;
    } else {
      i := PrefixHistory(r, j - 1, g, ms);
    }
  }

  /** A client that has just been sent something is not banned. */
  lemma JustSentIsNotMuted(r: Run, i: nat, g: Fd, id: nat, ms: seq<AppMessage>)
    requires IsHistory(r) && JustSent(r, i, g, id, ms)
    ensures !Muted(r.states[i], g)
  {
    hide Effect, Origin;
    var s, e, s' := r.states[i - 1], r.events[i - 1], r.states[i];
    assert Link(s, e, s');
    LinkHandsOne(s, e, s', g);
    HandedHasOrigin(s, e, s', g, ms[|ms| - 1]);
    HeardIsNotMuted(s, e, s', g, ms[|ms| - 1]);
  }

  lemma PrefixStep(s: Server, e: Event, s': Server, g: Fd, ms: seq<AppMessage>)
    requires Link(s, e, s') && g in s'.reg.clients && ms != [] && ms <= s'.outbox[g]
    ensures if |Before(s, e, g)| < |ms| then s'.outbox[g] == ms && Hands(s, e, s', g, [ms[|ms| - 1]])
            else g in s.reg.clients && ms <= s.outbox[g] && s'.reg.clients[g].id == s.reg.clients[g].id
  {
    assert HandsOne(s, e, s', g);
    if |Before(s, e, g)| < |ms| {
      var m :| Hands(s, e, s', g, [m]) && Origin(s, e, s', g, m);
      assert ms == s'.outbox[g];
      assert ms[|ms| - 1] == m;
    } else {
      StepKeepsId(s, e, s', g);
    }
  }

  lemma StepKeepsId(s: Server, e: Event, s': Server, g: Fd)
    requires s.reg.ValidIds() && s'.reg.ValidIds() && Effect(s, e, s')
    requires g in s.reg.clients && g in s'.reg.clients
    ensures s'.reg.clients[g].id == s.reg.clients[g].id
  {
    hide HandsOne;
  }

  /**
   * Membership replica: after any number k of consumed messages, the client's nickname_by_id_ agrees, on
   * every other client, with the registry as of the step i that emitted the last message consumed; and
   * it lists all of them once it has seen one UsersList.
   */
  lemma ClientMirrorsRegistry(r: Run, j: nat, g: Fd, k: nat) returns (i: nat)
    requires IsRun(r) && j < |r.states| && g in r.states[j].reg.clients && g in r.states[j].outbox
    requires 1 <= k <= |r.states[j].outbox[g]|
    ensures i <= j && JustSent(r, i, g, r.states[j].reg.clients[g].id, r.states[j].outbox[g][..k])
    ensures r.states[i].reg.ValidIds()
    ensures Mirrors(ViewAfter(r.states[j].outbox[g][..k]).nicknameById, r.states[i].reg.Names(),
                    r.states[j].reg.clients[g].id, HasList(r.states[j].outbox[g][..k]))
  {
    RunIsHistory(r);
    i := PrefixHistory(r, j, g, r.states[j].outbox[g][..k]);
    JustSentIsNotMuted(r, i, g, r.states[j].reg.clients[g].id, r.states[j].outbox[g][..k]);
    ReachesMirror(r, i);
  }
}
