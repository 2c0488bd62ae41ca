/**
 * The client's entry for itself. A client is not told of its own registration, so this entry comes from
 * UsersList messages only: it is the nickname the registry had when the last one was sent. The whole
 * copy equals the registry exactly if that nickname has not changed since.
 */
module OwnEntry {
  import opened Messages
  import opened Registry
  import opened Server
  import opened ServerSends
  import opened ServerRuns
  import opened Client
  import opened Replica

  // ----- news is about others -----

  predicate IsNewsOf(m: AppMessage, id: nat) {
    (m.UserJoined? && m.id == id) || (m.UserLeft? && m.id == id)
  }

  ghost predicate NoNewsOf(ms: seq<AppMessage>, own: nat) {
    forall i :: 0 <= i < |ms| ==> !IsNewsOf(ms[i], own)
  }

  ghost predicate NewsInv(s: Server) {
    forall g :: g in s.reg.clients ==> g in s.outbox && NoNewsOf(s.outbox[g], s.reg.clients[g].id)
  }

  lemma NewsIsForeign(s: Server, e: Event, s': Server, g: Fd, m: AppMessage)
    requires Link(s, e, s') && g in s'.reg.clients && Origin(s, e, s', g, m)
    ensures !IsNewsOf(m, s'.reg.clients[g].id)
  {
  }

  lemma StepKeepsNews(s: Server, e: Event, s': Server, g: Fd)
    requires Link(s, e, s') && NewsInv(s) && g in s'.reg.clients
    ensures g in s'.outbox && NoNewsOf(s'.outbox[g], s'.reg.clients[g].id)
  {
    hide Origin, IsNewsOf, Effect;
    var ms := Before(s, e, g);
    assert NoNewsOf(ms, s'.reg.clients[g].id) by {
      if e != Accept(g) {
        WasThere(s, e, s', g);
        StepKeepsId(s, e, s', g);
      }
    }
    LinkHandsOne(s, e, s', g);
    if m :| Hands(s, e, s', g, [m]) && Origin(s, e, s', g, m) {
      NewsIsForeign(s, e, s', g, m);
      assert s'.outbox[g] == ms + [m];
    } else {
      assert s'.outbox[g] == ms;
    }
  }

  lemma {:induction false} ReachesNews(r: Run, j: nat)
    requires IsHistory(r) && j < |r.states|
    ensures NewsInv(r.states[j])
  {
    hide Effect, NoNewsOf;
    if j > 0 {
      ReachesNews(r, j - 1);
      assert Link(r.states[j - 1], r.events[j - 1], r.states[j]);
      forall g | g in r.states[j].reg.clients
        ensures g in r.states[j].outbox && NoNewsOf(r.states[j].outbox[g], r.states[j].reg.clients[g].id)
      {
        StepKeepsNews(r.states[j - 1], r.events[j - 1], r.states[j], g);
      }
    }
  }

  // ----- the entry is the one of the last list -----

  /** How many of the messages ms there are up to and with the last UsersList; 0 if there is none. */
  function LastList(ms: seq<AppMessage>): (p: nat)
    ensures p <= |ms| && (p > 0 ==> ms[p - 1].UsersList?)
    decreases |ms|
  {
    if ms == [] then 0 else if ms[|ms| - 1].UsersList? then |ms| else LastList(ms[..|ms| - 1])
  }

  lemma {:induction false} LastListIsLast(ms: seq<AppMessage>)
    ensures LastList(ms) > 0 <==> HasList(ms)
    ensures forall i :: LastList(ms) <= i < |ms| ==> !ms[i].UsersList?
    decreases |ms|
  {
    if ms != [] {
      var front := ms[..|ms| - 1];
      LastListIsLast(front);
      assert forall i :: 0 <= i < |front| ==> front[i] == ms[i];
      if HasList(ms) && !ms[|ms| - 1].UsersList? {
        var i :| 0 <= i < |ms| && ms[i].UsersList?;
        assert front[i].UsersList?;
      }
      if HasList(front) {
        var i :| 0 <= i < |front| && front[i].UsersList?;
        assert ms[i].UsersList?;
      }
    }
  }

  /** Messages without a list and without news of the client leave its own entry alone. */
  lemma {:induction false} EntryStays(ms: seq<AppMessage>, p: nat, own: nat)
    requires p <= |ms| && NoNewsOf(ms, own) && forall i :: p <= i < |ms| ==> !ms[i].UsersList?
    ensures var v, v' := ViewAfter(ms[..p]).nicknameById, ViewAfter(ms).nicknameById;
            (own in v' <==> own in v) && (own in v ==> v'[own] == v[own])
    decreases |ms|
  {
    if p == |ms| {
      assert ms[..p] == ms;
    } else {
      var front, last := ms[..|ms| - 1], ms[|ms| - 1];
      assert front[..p] == ms[..p];
      EntryStays(front, p, own);
      assert !IsNewsOf(last, own);
      assert ViewAfter(ms) == Observed(ViewAfter(front), last);
    }
  }

  lemma ListGivesEntry(v: View, names: NameMap, own: nat)
    requires own in names
    ensures var v' := AllNamed(v, SortedUsers(names)).nicknameById; own in v' && v'[own] == names[own]
  {
    hide AllNamed, SortedUsers;
    SortedUsersContents(names);
    AllNamedEntries(v, SortedUsers(names));
  }

  /** Right after a list has been sent, the entry it gives the client is the registry's. */
  lemma ListedEntry(s: Server, e: Event, s': Server, g: Fd, ms: seq<AppMessage>)
    requires Link(s, e, s') && g in s'.reg.clients && s'.outbox[g] == ms && ms != [] && ms[|ms| - 1].UsersList?
    requires Hands(s, e, s', g, [ms[|ms| - 1]])
    ensures var own, v := s'.reg.clients[g].id, ViewAfter(ms).nicknameById;
            own in v && own in s'.reg.Names() && v[own] == s'.reg.Names()[own]
  {
    hide Effect, SortedUsers, ViewAfter, AllNamed;
    ListOrigin(s, e, s', g, ms[|ms| - 1]);
    IdIsNamed(s, e, s', g);
    LastIsObserved(ms);
    ListGivesEntry(ViewAfter(ms[..|ms| - 1]), s'.reg.Names(), s'.reg.clients[g].id);
  }

  lemma ListOrigin(s: Server, e: Event, s': Server, g: Fd, m: AppMessage)
    requires Link(s, e, s') && g in s'.reg.clients && Hands(s, e, s', g, [m]) && m.UsersList?
    ensures m.users == SortedUsers(s'.reg.Names())
  {
    hide SortedUsers, Effect, HandsOne;
    LinkHandsOne(s, e, s', g);
    HandedHasOrigin(s, e, s', g, m);
  }

  lemma IdIsNamed(s: Server, e: Event, s': Server, g: Fd)
    requires Link(s, e, s') && g in s'.reg.clients
    ensures s'.reg.clients[g].id in s'.reg.Names()
  {
  }

  lemma LastIsObserved(ms: seq<AppMessage>)
    requires ms != []
    ensures ViewAfter(ms) == Observed(ViewAfter(ms[..|ms| - 1]), ms[|ms| - 1])
  {
  }

  /**
   * After any number k of consumed messages with a UsersList among them, the client's own entry is the
   * nickname it had in the registry at step l, which emitted the last UsersList consumed.
   */
  lemma OwnEntryIsLastListed(r: Run, j: nat, g: Fd, k: nat) returns (l: nat)
    requires IsRun(r) && j < |r.states| && g in r.states[j].reg.clients && g in r.states[j].outbox
    requires k <= |r.states[j].outbox[g]| && HasList(r.states[j].outbox[g][..k])
    ensures var own, ms := r.states[j].reg.clients[g].id, r.states[j].outbox[g][..k];
            && l <= j && JustSent(r, l, g, own, ms[..LastList(ms)]) && r.states[l].reg.ValidIds()
            && own in ViewAfter(ms).nicknameById && own in r.states[l].reg.Names()
            && ViewAfter(ms).nicknameById[own] == r.states[l].reg.Names()[own]
  {
    hide Effect, ViewAfter, Follows;
    RunIsHistory(r);
    var own, ms := r.states[j].reg.clients[g].id, r.states[j].outbox[g][..k];
    LastListIsLast(ms);
    var listed := ms[..LastList(ms)];
    assert listed[|listed| - 1] == ms[LastList(ms) - 1];
    l := PrefixHistory(r, j, g, listed);
    assert Link(r.states[l - 1], r.events[l - 1], r.states[l]);
    ListedEntry(r.states[l - 1], r.events[l - 1], r.states[l], g, listed);
    ReachesNews(r, j);
    assert NoNewsOf(ms, own);
    EntryStays(ms, LastList(ms), own);
  }

  // ----- the whole copy -----

  /** A copy that mirrors the registry and knows its owner equals the registry if the owner's entry does. */
  lemma EqualIff(v: NameMap, names: NameMap, own: nat)
    requires Mirrors(v, names, own, true) && own in names
    ensures v == names <==> v[own] == names[own]
  {
    if v[own] == names[own] {
      assert v.Keys == names.Keys;
    }
  }

  /**
   * Once a UsersList has been consumed, the copy equals the registry as of the step i that emitted the
   * last message consumed if and only if the client's own nickname is still the one it had at the step
   * l that emitted the last UsersList consumed.
   */
  lemma CopyIsExactIff(r: Run, j: nat, g: Fd, k: nat) returns (i: nat, l: nat)
    requires IsRun(r) && j < |r.states| && g in r.states[j].reg.clients && g in r.states[j].outbox
    requires k <= |r.states[j].outbox[g]| && HasList(r.states[j].outbox[g][..k])
    ensures var own, ms := r.states[j].reg.clients[g].id, r.states[j].outbox[g][..k];
            && i <= j && JustSent(r, i, g, own, ms) && r.states[i].reg.ValidIds() && own in r.states[i].reg.Names()
            && l <= j && JustSent(r, l, g, own, ms[..LastList(ms)]) && r.states[l].reg.ValidIds() && own in r.states[l].reg.Names()
            && (ViewAfter(ms).nicknameById == r.states[i].reg.Names() <==>
                r.states[i].reg.Names()[own] == r.states[l].reg.Names()[own])
  {
    hide ViewAfter, Follows, Mirrors;
    var own, ms := r.states[j].reg.clients[g].id, r.states[j].outbox[g][..k];
    assert k >= 1;
    i := ClientMirrorsRegistry(r, j, g, k);
    l := OwnEntryIsLastListed(r, j, g, k);
    EqualIff(ViewAfter(ms).nicknameById, r.states[i].reg.Names(), own);
  }

  // ----- clients that register before they ask for a list -----

  /** Up to state j nobody takes a nickname after having been sent a UsersList. */
  ghost predicate NamesBeforeLists(r: Run, j: nat) {
    j <= |r.events| && j <= |r.states|
    && forall i :: 0 <= i < j ==> NamesBeforeList(r.states[i], r.events[i])
  }

  ghost predicate NamesBeforeList(s: Server, e: Event) {
    GivesNickname(s, e) ==> e.fd in s.outbox && !HasList(s.outbox[e.fd])
  }

  /** What the client on g has for itself is its nickname. */
  ghost predicate OwnRight(s: Server, g: Fd)
    requires s.reg.ValidIds() && g in s.reg.clients && g in s.outbox
  {
    var own, v := s.reg.clients[g].id, ViewAfter(s.outbox[g]).nicknameById;
    own in v ==> own in s.reg.Names() && v[own] == s.reg.Names()[own]
  }

  ghost predicate OwnInv(s: Server) {
    && s.reg.ValidIds() && s.outbox.Keys == s.reg.clients.Keys
    && forall g :: g in s.reg.clients && !Muted(s, g) ==> OwnRight(s, g)
  }

  /** A step that hands g no list keeps its own nickname, or comes before g has any entry of its own. */
  lemma OwnNicknameStays(s: Server, e: Event, s': Server, g: Fd)
    requires Link(s, e, s') && g in s.reg.clients && g in s'.reg.clients && !(GivesNickname(s, e) && e.fd == g)
    ensures var own := s.reg.clients[g].id;
            own in s.reg.Names() && own in s'.reg.Names() && s'.reg.Names()[own] == s.reg.Names()[own]
  {
  }

  lemma StepKeepsOwn(s: Server, e: Event, s': Server, g: Fd)
    requires Link(s, e, s') && MirrorInv(s) && OwnInv(s) && NewsInv(s) && NamesBeforeList(s, e)
    requires g in s'.reg.clients && !Muted(s', g)
    ensures OwnRight(s', g)
  {
    hide Effect, Origin, ViewAfter, NoNewsOf, Mirrors;
    if e == Accept(g) {
      FreshMirror(s, s', g);
      FreshHasNoEntry(s, s', g);
    } else {
      WasThere(s, e, s', g);
      StepKeepsId(s, e, s', g);
      NotMutedBefore(s, e, s', g);
      var ms := s.outbox[g];
      var own := s.reg.clients[g].id;
      LinkHandsOne(s, e, s', g);
      if m :| Hands(s, e, s', g, [m]) && Origin(s, e, s', g, m) {
        assert s'.outbox[g] == ms + [m];
        if m.UsersList? {
          ListedEntry(s, e, s', g, ms + [m]);
        } else {
          NewsIsForeign(s, e, s', g, m);
          ViewAfterAppend(ms, m);
          OwnUntouched(ViewAfter(ms), m, own);
          KeepsOwn(s, e, s', g);
        }
      } else {
        assert s'.outbox[g] == ms;
        KeepsOwn(s, e, s', g);
      }
    }
  }

  lemma OwnUntouched(v: View, m: AppMessage, own: nat)
    requires !m.UsersList? && !IsNewsOf(m, own)
    ensures own in Observed(v, m).nicknameById <==> own in v.nicknameById
    ensures own in v.nicknameById ==> Observed(v, m).nicknameById[own] == v.nicknameById[own]
  {
  }

  lemma FreshHasNoEntry(s: Server, s': Server, g: Fd)
    requires Link(s, Accept(g), s') && g in s'.reg.clients
    ensures ViewAfter(s'.outbox[g]).nicknameById == map[]
  {
    var first := AssignId(s'.reg.clients[g].id, s.reg.clients == map[]);
    assert s'.outbox[g] == [] + [first];
    ViewAfterAppend([], first);
  }

  /** The entry was right, and either the nickname is the same or there is no entry. */
  lemma KeepsOwn(s: Server, e: Event, s': Server, g: Fd)
    requires Link(s, e, s') && MirrorInv(s) && OwnInv(s) && NamesBeforeList(s, e)
    requires g in s.reg.clients && g in s'.reg.clients && !Muted(s, g)
    ensures var own, v := s.reg.clients[g].id, ViewAfter(s.outbox[g]).nicknameById;
            own in v ==> own in s'.reg.Names() && v[own] == s'.reg.Names()[own]
  {
    hide Effect, ViewAfter;
    if !(GivesNickname(s, e) && e.fd == g) {
      OwnNicknameStays(s, e, s', g);
      assert OwnRight(s, g);
    }
  }

  lemma {:induction false} ReachesOwn(r: Run, j: nat)
    requires IsRun(r) && j < |r.states| && NamesBeforeLists(r, j)
    ensures OwnInv(r.states[j])
  {
    hide Effect, Follows, OwnRight, NamesBeforeList, Mirrors, NoNewsOf;
    RunIsHistory(r);
    if j > 0 {
      ReachesOwn(r, j - 1);
      ReachesMirror(r, j - 1);
      ReachesNews(r, j - 1);
      assert Link(r.states[j - 1], r.events[j - 1], r.states[j]);
      forall g | g in r.states[j].reg.clients && !Muted(r.states[j], g)
        ensures OwnRight(r.states[j], g)
      {
        StepKeepsOwn(r.states[j - 1], r.events[j - 1], r.states[j], g);
      }
    }
  }

  /** Every entry of the copy is an entry of the registry. */
  predicate IsSubmap(v: NameMap, names: NameMap) {
    forall id :: id in v ==> id in names && v[id] == names[id]
  }

  /**
   * Membership replica, in full: if nobody takes a nickname after having been sent a UsersList, then
   * after any number k of consumed messages the copy is a submap of the registry as of the step that
   * emitted the last of them, and equals it once one UsersList has been consumed.
   */
  lemma CopyIsExact(r: Run, j: nat, g: Fd, k: nat) returns (i: nat)
    requires IsRun(r) && j < |r.states| && g in r.states[j].reg.clients && g in r.states[j].outbox
    requires 1 <= k <= |r.states[j].outbox[g]| && NamesBeforeLists(r, j)
    ensures var own, ms := r.states[j].reg.clients[g].id, r.states[j].outbox[g][..k];
            && i <= j && JustSent(r, i, g, own, ms) && r.states[i].reg.ValidIds()
            && IsSubmap(ViewAfter(ms).nicknameById, r.states[i].reg.Names())
            && (HasList(ms) ==> ViewAfter(ms).nicknameById == r.states[i].reg.Names())
  {
    hide ViewAfter, Follows, NamesBeforeList;
    i := ClientMirrorsRegistry(r, j, g, k);
    ReachesOwn(r, i);
    var own, ms := r.states[j].reg.clients[g].id, r.states[j].outbox[g][..k];
    RunIsHistory(r);
    JustSentIsNotMuted(r, i, g, own, ms);
    assert OwnRight(r.states[i], g);
    MirrorIsSubmap(ViewAfter(ms).nicknameById, r.states[i].reg.Names(), own, HasList(ms));
  }

  lemma MirrorIsSubmap(v: NameMap, names: NameMap, own: nat, listed: bool)
    requires Mirrors(v, names, own, listed) && (own in v ==> own in names && v[own] == names[own])
    ensures IsSubmap(v, names) && (listed ==> v == names)
  {
    if listed {
      assert v.Keys == names.Keys;
    }
  }
}
