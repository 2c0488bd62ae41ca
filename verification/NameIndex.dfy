/** The client's reverse index id_by_nickname_, and when it can be trusted. */
module NameIndex {
  import opened Bytes
  import opened Messages
  import opened Registry
  import opened Server
  import opened ServerSends
  import opened ServerRuns
  import opened Client
  import opened Replica

  /** id_by_nickname_ is exactly the inverse of nickname_by_id_ on the non-empty nicknames. */
  ghost predicate Inverse(v: View) {
    && (forall n :: n in v.idByNickname ==>
          n != [] && v.idByNickname[n] in v.nicknameById && v.nicknameById[v.idByNickname[n]] == n)
    && (forall id :: id in v.nicknameById && v.nicknameById[id] != [] ==>
          v.nicknameById[id] in v.idByNickname && v.idByNickname[v.nicknameById[id]] == id)
  }

  /** The copy knows connected clients only, each under its nickname or not yet under any. */
  ghost predicate Consistent(v: NameMap, names: NameMap) {
    forall id :: id in v ==> id in names && (v[id] == names[id] || v[id] == [])
  }

  ghost predicate Distinct(names: NameMap) {
    forall a, b :: a in names && b in names && a != b && names[a] != [] ==> names[a] != names[b]
  }

  lemma HolderOfName(r: Registry, id: nat)
    requires r.Valid() && id in r.fdById && r.Names()[id] != []
    ensures r.Names()[id] in r.idByNickname && r.idByNickname[r.Names()[id]] == id
  {
    var f := r.fdById[id];
    assert f in r.clients && r.clients[f].nickname == r.Names()[id] && r.clients[f].id == id;
  }

  lemma NamesDistinct(r: Registry)
    requires r.Valid()
    ensures Distinct(r.Names())
  {
    forall a, b | a in r.Names() && b in r.Names() && a != b && r.Names()[a] != []
      ensures r.Names()[a] != r.Names()[b]
    {
      HolderOfName(r, a);
      if r.Names()[b] != [] {
        HolderOfName(r, b);
      }
    }
  }

  lemma NamedKeepsInverse(v: View, names: NameMap, id: nat)
    requires Distinct(names) && Consistent(v.nicknameById, names) && Inverse(v) && id in names
    ensures Inverse(Named(v, id, names[id])) && Consistent(Named(v, id, names[id]).nicknameById, names)
  {
    var n := names[id];
    var v' := Named(v, id, n);
    if n != [] && n in v.idByNickname {
      assert v.idByNickname[n] == id;
    }
  }

  lemma {:induction false} AllNamedKeepsInverse(v: View, names: NameMap, users: seq<UserInfo>)
    requires Distinct(names) && Consistent(v.nicknameById, names) && Inverse(v)
    requires forall i :: 0 <= i < |users| ==> users[i].id in names && users[i].nickname == names[users[i].id]
    ensures Inverse(AllNamed(v, users)) && Consistent(AllNamed(v, users).nicknameById, names)
    decreases |users|
  {
    if users != [] {
      AllNamedKeepsInverse(v, names, users[..|users| - 1]);
      NamedKeepsInverse(AllNamed(v, users[..|users| - 1]), names, users[|users| - 1].id);
    }
  }

  lemma LeftKeepsInverse(v: View, names: NameMap, id: nat)
    requires Distinct(names) && Consistent(v.nicknameById, names) && Inverse(v) && id in names
    ensures var v' := Observed(v, UserLeft(id, names[id]));
            Inverse(v') && Consistent(v'.nicknameById, names - {id})
  {
    var v' := Observed(v, UserLeft(id, names[id]));
    forall m | m in v'.idByNickname
      ensures m != [] && v'.idByNickname[m] in v'.nicknameById && v'.nicknameById[v'.idByNickname[m]] == m
    {
      assert v.nicknameById[v.idByNickname[m]] == m;
    }
    forall x | x in v'.nicknameById && v'.nicknameById[x] != []
      ensures v'.nicknameById[x] in v'.idByNickname && v'.idByNickname[v'.nicknameById[x]] == x
    {
      assert names[x] == v.nicknameById[x] && x != id;
    }
  }

  ghost predicate IndexInv(s: Server) {
    && s.reg.ValidIds() && s.outbox.Keys == s.reg.clients.Keys
    && forall g :: g in s.reg.clients ==>
         && Inverse(ViewAfter(s.outbox[g]))
         && (!Muted(s, g) ==> Consistent(ViewAfter(s.outbox[g]).nicknameById, s.reg.Names()))
  }

  /** The step does not rename a client that already has a nickname. */
  ghost predicate NamesOnce(s: Server, e: Event) {
    GivesNickname(s, e) ==> s.reg.clients[e.fd].nickname == []
  }

  lemma JoinedKeepsIndex(v: View, names: NameMap, id: nat, nickname: seq<Byte>)
    requires Inverse(v) && Consistent(v.nicknameById, names)
    requires Distinct(names[id := nickname]) && (id in names ==> names[id] == [])
    ensures var v' := Observed(v, UserJoined(id, nickname));
            Inverse(v') && Consistent(v'.nicknameById, names[id := nickname])
  {
    NamedKeepsInverse(v, names[id := nickname], id);
  }

  lemma JoinKeepsIndex(s: Server, e: Event, s': Server, g: Fd, v: View, m: AppMessage)
    requires Link(s, e, s') && s'.reg.Valid() && NamesOnce(s, e) && m.UserJoined? && Origin(s, e, s', g, m)
    requires Inverse(v) && Consistent(v.nicknameById, s.reg.Names())
    ensures Inverse(Observed(v, m)) && Consistent(Observed(v, m).nicknameById, s'.reg.Names())
  {
    JoinChanges(s, e, s', g, m.id, m.nickname);
    NamesDistinct(s'.reg);
    JoinedKeepsIndex(v, s.reg.Names(), m.id, m.nickname);
  }

  lemma LeaveKeepsIndex(s: Server, e: Event, s': Server, g: Fd, v: View, m: AppMessage)
    requires Link(s, e, s') && s.reg.Valid() && m.UserLeft? && Origin(s, e, s', g, m)
    requires Inverse(v) && Consistent(v.nicknameById, s.reg.Names())
    ensures Inverse(Observed(v, m)) && Consistent(Observed(v, m).nicknameById, s'.reg.Names())
  {
    LeaveChanges(s, e, s', g, m.id, m.nickname);
    NamesDistinct(s.reg);
    LeftKeepsInverse(v, s.reg.Names(), m.id);
  }

  lemma ListKeepsIndex(r: Registry, v: View)
    requires r.Valid() && Inverse(v) && Consistent(v.nicknameById, r.Names())
    ensures var v' := Observed(v, UsersList(SortedUsers(r.Names())));
            Inverse(v') && Consistent(v'.nicknameById, r.Names())
  {
    NamesDistinct(r);
    SortedUsersContents(r.Names());
    AllNamedKeepsInverse(v, r.Names(), SortedUsers(r.Names()));
  }

  lemma MessageKeepsIndex(s: Server, e: Event, s': Server, g: Fd, v: View, m: AppMessage)
    requires Link(s, e, s') && s.reg.Valid() && s'.reg.Valid() && NamesOnce(s, e)
    requires g in s.reg.clients && g in s'.reg.clients && !Muted(s, g)
    requires Hands(s, e, s', g, [m]) && Origin(s, e, s', g, m)
    requires Inverse(v) && Consistent(v.nicknameById, s.reg.Names())
    ensures Inverse(Observed(v, m)) && Consistent(Observed(v, m).nicknameById, s'.reg.Names())
  {
    if m.UserJoined? {
      JoinKeepsIndex(s, e, s', g, v, m);
    } else if m.UserLeft? {
      LeaveKeepsIndex(s, e, s', g, v, m);
    } else if m.UsersList? {
      ListKeepsIndex(s.reg, v);
    } else {
      NoNewsNoChange(s, e, s', g, [m]);
      QuietKeepsIndex(s, e, s', g, v.nicknameById);
    }
  }

  lemma QuietKeepsIndex(s: Server, e: Event, s': Server, g: Fd, v: NameMap)
    requires s.reg.ValidIds() && s'.reg.ValidIds() && NamesOnce(s, e)
    requires s'.reg == s.reg || (GivesNickname(s, e) && NicknameEffect(s, e, s'))
    requires Consistent(v, s.reg.Names())
    ensures Consistent(v, s'.reg.Names())
  {
    if s'.reg != s.reg {
      assert s.reg.Names()[s.reg.clients[e.fd].id] == [];
    }
  }

  lemma FreshIndex(s: Server, s': Server, g: Fd)
    requires Link(s, Accept(g), s') && g in s'.reg.clients
    ensures Inverse(ViewAfter(s'.outbox[g])) && Consistent(ViewAfter(s'.outbox[g]).nicknameById, s'.reg.Names())
  {
    hide Effect;
    FreshOutbox(s, s', g);
    var first := AssignId(s'.reg.clients[g].id, s.reg.clients == map[]);
    assert s'.outbox[g] == [] + [first];
    ViewAfterAppend([], first);
  }

  lemma IndexOne(s: Server, e: Event, s': Server, g: Fd)
    requires Link(s, e, s') && s.reg.Valid() && s'.reg.Valid() && NamesOnce(s, e) && IndexInv(s) && g in s'.reg.clients
    ensures Inverse(ViewAfter(s'.outbox[g]))
    ensures !Muted(s', g) ==> Consistent(ViewAfter(s'.outbox[g]).nicknameById, s'.reg.Names())
  {
    hide ViewAfter, Inverse, Consistent, Origin, Effect, HasList;
    if e == Accept(g) {
      FreshIndex(s, s', g);
    } else if Muted(s', g) {
      WasThere(s, e, s', g);
      MutedHearNothing(s, e, s', g);
    } else {
      WasThere(s, e, s', g);
      NotMutedBefore(s, e, s', g);
      var ms := s.outbox[g];
      LinkHandsOne(s, e, s', g);
      if m :| Hands(s, e, s', g, [m]) && Origin(s, e, s', g, m) {
        ViewAfterAppend(ms, m);
        MessageKeepsIndex(s, e, s', g, ViewAfter(ms), m);
      } else {
        assert s'.outbox[g] == ms;
        NoNewsNoChange(s, e, s', g, []);
        QuietKeepsIndex(s, e, s', g, ViewAfter(ms).nicknameById);
      }
    }
  }

  lemma StepKeepsIndex(s: Server, e: Event, s': Server)
    requires Link(s, e, s') && s.reg.Valid() && s'.reg.Valid() && NamesOnce(s, e) && IndexInv(s)
    ensures IndexInv(s')
  {
    forall g | g in s'.reg.clients
      ensures Inverse(ViewAfter(s'.outbox[g]))
      ensures !Muted(s', g) ==> Consistent(ViewAfter(s'.outbox[g]).nicknameById, s'.reg.Names())
    {
      IndexOne(s, e, s', g);
    }
  }

  /** If no connection takes a second nickname, every client's reverse index is exact in every reachable state. */
  lemma {:induction false} ReachesIndex(r: Run, j: nat)
    requires IsRun(r) && j < |r.states|
    requires forall i :: 0 <= i < j ==> NamesOnce(r.states[i], r.events[i])
    ensures IndexInv(r.states[j])
  {
    hide Follows, NamesOnce, Effect;
    if j > 0 {
      ReachesIndex(r, j - 1);
      RunEffect(r, j - 1);
      StepKeepsIndex(r.states[j - 1], r.events[j - 1], r.states[j]);
    }
  }

  /** The same after any number of consumed messages: each beginning of the stream was once the whole of it. */
  lemma ClientIndexIsExact(r: Run, j: nat, g: Fd, k: nat)
    requires IsRun(r) && j < |r.states| && g in r.states[j].reg.clients && g in r.states[j].outbox
    requires 1 <= k <= |r.states[j].outbox[g]|
    requires forall i :: 0 <= i < j ==> NamesOnce(r.states[i], r.events[i])
    ensures Inverse(ViewAfter(r.states[j].outbox[g][..k]))
  {
    RunIsHistory(r);
    var i := PrefixHistory(r, j, g, r.states[j].outbox[g][..k]);
    ReachesIndex(r, i);
  }

  /**
   * A rename is the event that breaks the index, and exactly at the clients that are still told of it
   * and had learned the old nickname: the UserJoined that announces the new one does not retract the old.
   */
  lemma RenameBreaksIndexIff(s: Server, e: Event, s': Server, g: Fd)
    requires Link(s, e, s') && s.reg.Valid() && MirrorInv(s) && IndexInv(s)
    requires GivesNickname(s, e) && g in s'.reg.clients && g != e.fd
    requires s.reg.clients[e.fd].nickname != [] && s.reg.clients[e.fd].nickname != e.incoming.message.nickname
    ensures g in s.reg.clients
    ensures Inverse(ViewAfter(s'.outbox[g])) <==> Muted(s, g) || s.reg.clients[e.fd].id !in ViewAfter(s.outbox[g]).nicknameById
  {
    hide Inverse, Consistent, ViewAfter, Mirrors, MayTakeNickname, Effect, HasList;
    RenameIsTold(s, e, s', g);
    assert Inverse(ViewAfter(s.outbox[g]));
    if !Muted(s, g) {
      ViewAfterAppend(s.outbox[g], UserJoined(s.reg.clients[e.fd].id, e.incoming.message.nickname));
      OthersAreRight(s, g, e.fd);
      RenamedIndexIff(s.reg, e.fd, e.incoming.message.nickname, ViewAfter(s.outbox[g]));
    } else {
      assert s'.outbox[g] == s.outbox[g];
    }
  }

  lemma RenameIsTold(s: Server, e: Event, s': Server, g: Fd)
    requires Link(s, e, s') && GivesNickname(s, e) && g in s'.reg.clients && g != e.fd
    ensures g in s.reg.clients
    ensures s'.outbox[g] == s.outbox[g] + if Muted(s, g) then [] else [UserJoined(s.reg.clients[e.fd].id, e.incoming.message.nickname)]
  {
    hide HandsOne, MayTakeNickname;
  }

  /** What g's copy says of the client on fd is right. */
  lemma OthersAreRight(s: Server, g: Fd, fd: Fd)
    requires MirrorInv(s) && g in s.reg.clients && fd in s.reg.clients && g != fd && !Muted(s, g)
    ensures var id, v := s.reg.clients[fd].id, ViewAfter(s.outbox[g]).nicknameById;
            id in v ==> v[id] == s.reg.clients[fd].nickname
  {
    hide ViewAfter, HasList;
    assert s.reg.clients[fd].id != s.reg.clients[g].id;
  }

  lemma RenamedIndexIff(r: Registry, fd: Fd, n: seq<Byte>, v: View)
    requires r.Valid() && fd in r.clients && MayTakeNickname(r, fd, n)
    requires r.clients[fd].nickname != [] && r.clients[fd].nickname != n
    requires Inverse(v) && Consistent(v.nicknameById, r.Names())
    requires r.clients[fd].id in v.nicknameById ==> v.nicknameById[r.clients[fd].id] == r.clients[fd].nickname
    ensures Inverse(Named(v, r.clients[fd].id, n)) <==> r.clients[fd].id !in v.nicknameById
  {
    if r.clients[fd].id in v.nicknameById {
      OldNameStays(v, r.clients[fd].id, n);
    } else {
      RenameUnseen(r, fd, n, v);
    }
  }

  lemma OldNameStays(v: View, id: nat, n: seq<Byte>)
    requires Inverse(v) && id in v.nicknameById && v.nicknameById[id] != [] && v.nicknameById[id] != n
    ensures !Inverse(Named(v, id, n))
  {
    var old_ := v.nicknameById[id];
    assert old_ in v.idByNickname && v.idByNickname[old_] == id;
    assert old_ in Named(v, id, n).idByNickname;
  }

  lemma RenameUnseen(r: Registry, fd: Fd, n: seq<Byte>, v: View)
    requires r.Valid() && fd in r.clients && MayTakeNickname(r, fd, n)
    requires Inverse(v) && Consistent(v.nicknameById, r.Names()) && r.clients[fd].id !in v.nicknameById
    ensures Inverse(Named(v, r.clients[fd].id, n))
  {
    if n in v.idByNickname {
      var other := v.idByNickname[n];
      HolderOfName(r, other);
      assert false;
    }
  }
}
