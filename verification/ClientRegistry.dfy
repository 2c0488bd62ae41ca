/** server/model/ClientRegistry.cpp as an object, against the values of module Registry. */
module ClientRegistry {
  import opened Bytes
  import opened Messages
  import opened Registry
  import opened Server

  // ----- sorting -----

  predicate Ascending(users: seq<UserInfo>) {
    forall i, j :: 0 <= i < j < |users| ==> users[i].id < users[j].id
  }

  ghost predicate SameUsers(a: seq<UserInfo>, b: seq<UserInfo>) {
    forall u :: u in a <==> u in b
  }

  /** std::sort by id, for users with distinct ids. */
  method SortById(users: seq<UserInfo>) returns (sorted: seq<UserInfo>)
    requires forall i, j :: 0 <= i < j < |users| ==> users[i].id != users[j].id
    ensures Ascending(sorted) && SameUsers(sorted, users)
  {
    sorted := [];
    for i := 0 to |users|
      invariant Ascending(sorted) && SameUsers(sorted, users[..i])
    {
      var k := 0;
      while k < |sorted| && sorted[k].id < users[i].id
        invariant k <= |sorted|
        invariant forall j :: 0 <= j < k ==> sorted[j].id < users[i].id
      {
        k := k + 1;
      }
      ghost var before := sorted;
      assert users[..i + 1] == users[..i] + [users[i]];
      assert k < |sorted| ==> sorted[k] in sorted;
      sorted := sorted[..k] + [users[i]] + sorted[k..];
      InsertedSame(before, k, users[i], users[..i]);
    }
    assert users[..|users|] == users;
  }

  lemma InsertedSame(before: seq<UserInfo>, k: nat, user: UserInfo, users: seq<UserInfo>)
    requires k <= |before| && SameUsers(before, users)
    ensures SameUsers(before[..k] + [user] + before[k..], users + [user])
  {
    assert before == before[..k] + before[k..];
    forall u
      ensures u in before[..k] + [user] + before[k..] <==> u in users + [user]
    {
      assert u in before <==> u in before[..k] || u in before[k..];
    }
  }

  /** A list of users in ascending order of their ids is determined by its members. */
  lemma {:induction false} AscendingIsUnique(a: seq<UserInfo>, b: seq<UserInfo>)
    requires Ascending(a) && Ascending(b) && SameUsers(a, b)
    ensures a == b
    decreases |a|
  {
    if a != [] {
      assert a[0] in b;
    }
    if b != [] {
      assert b[0] in a;
    }
    if a != [] {
      assert a[0] == b[0];
      forall u
        ensures u in a[1..] <==> u in b[1..]
      {
        assert u in a <==> u == a[0] || u in a[1..];
        assert u in b <==> u == b[0] || u in b[1..];
      }
      AscendingIsUnique(a[1..], b[1..]);
      assert a == [a[0]] + a[1..] && b == [b[0]] + b[1..];
    }
  }

  /** The users of the registry, in ascending order, are what module Server calls SortedUsers. */
  lemma SortedUsersUnique(names: map<nat, seq<Byte>>, users: seq<UserInfo>)
    requires Ascending(users) && forall u :: u in users <==> u.id in names && names[u.id] == u.nickname
    ensures users == SortedUsers(names)
  {
    var sorted := SortedUsers(names);
    SortedUsersContents(names);
    forall u
      ensures u in users <==> u in sorted
    {
      if u.id in names && names[u.id] == u.nickname {
        var i :| 0 <= i < |sorted| && sorted[i].id == u.id;
        assert sorted[i] == u;
      }
    }
    AscendingIsUnique(users, sorted);
  }

  // ----- the object -----

  lemma NonEmpty(fds: set<Fd>)
    requires fds != {}
    ensures exists fd :: fd in fds
  {
    assert (forall fd :: fd !in fds) ==> fds == {};
  }

  class ClientRegistry {
    var clientsByFd: map<Fd, ClientRecord>
    var fdById: map<nat, Fd>
    var idByNickname: map<seq<Byte>, nat>

    ghost function View(): Registry
      reads this
    {
      Registry(clientsByFd, fdById, idByNickname)
    }

    constructor ()
      ensures View() == Registry(map[], map[], map[])
    {
      clientsByFd, fdById, idByNickname := map[], map[], map[];
    }

    method Add(fd: Fd, id: nat) returns (record: ClientRecord)
      modifies this
      ensures View() == old(View()).Add(fd, id) && record == clientsByFd[fd]
    {
      record := ClientRecord(fd, id, [], false);
      clientsByFd := clientsByFd[fd := record];
      fdById := fdById[id := fd];
    }

    method Remove(fd: Fd) returns (removed: Option<ClientRecord>)
      modifies this
      ensures View() == old(View()).Remove(fd)
      ensures removed == if fd in old(clientsByFd) then Some(old(clientsByFd)[fd]) else None
    {
      if fd !in clientsByFd {
        return None;
      }
      var record := clientsByFd[fd];
      if record.nickname != [] {
        idByNickname := idByNickname - {record.nickname};
      }
      fdById := fdById - {record.id};
      clientsByFd := clientsByFd - {fd};
      return Some(record);
    }

    method SetNickname(fd: Fd, nickname: seq<Byte>)
      modifies this
      ensures View() == old(View()).SetNickname(fd, nickname)
    {
      if fd !in clientsByFd {
        return;
      }
      var record := clientsByFd[fd];
      if record.nickname != [] {
        idByNickname := idByNickname - {record.nickname};
      }
      clientsByFd := clientsByFd[fd := record.(nickname := nickname, registered := true)];
      idByNickname := idByNickname[nickname := record.id];
    }

    /** all_fds: every descriptor once, in an order of the hash map's choosing. */
    method AllFds() returns (fds: seq<Fd>)
      ensures forall i, j :: 0 <= i < j < |fds| ==> fds[i] != fds[j]
      ensures forall i :: 0 <= i < |fds| ==> fds[i] in clientsByFd
      ensures forall fd :: fd in fds <==> fd in clientsByFd
    {
      fds := [];
      var left := clientsByFd.Keys;
      while left != {}
        invariant left <= clientsByFd.Keys
        invariant forall i, j :: 0 <= i < j < |fds| ==> fds[i] != fds[j]
        invariant forall i :: 0 <= i < |fds| ==> fds[i] in clientsByFd
        invariant forall fd :: fd in fds <==> fd in clientsByFd && fd !in left
        decreases |left|
      {
        NonEmpty(left);
        var fd :| fd in left;
        fds := fds + [fd];
        left := left - {fd};
      }
    }

    /** collect_users: gathered in an arbitrary order, then sorted by id. */
    method CollectUsers() returns (users: seq<UserInfo>)
      requires View().ValidIds()
      ensures users == SortedUsers(View().Names())
    {
      var gathered: seq<UserInfo> := [];
      var left := clientsByFd.Keys;
      while left != {}
        invariant left <= clientsByFd.Keys
        invariant forall i, j :: 0 <= i < j < |gathered| ==> gathered[i].id != gathered[j].id
        invariant forall u :: u in gathered <==> Gathered(View(), left, u)
        decreases |left|
      {
        NonEmpty(left);
        var fd :| fd in left;
        ghost var before := gathered;
        gathered := gathered + [UserInfo(clientsByFd[fd].id, clientsByFd[fd].nickname)];
        GatherOne(View(), left, fd, before);
        left := left - {fd};
      }
      users := SortById(gathered);
      forall u
        ensures u in users <==> u.id in View().Names() && View().Names()[u.id] == u.nickname
      {
        assert u in gathered <==> Gathered(View(), {}, u);
      }
      SortedUsersUnique(View().Names(), users);
    }
  }

  /** u describes a client whose descriptor has been visited. */
  ghost predicate Gathered(r: Registry, left: set<Fd>, u: UserInfo) {
    && u.id in r.fdById && r.fdById[u.id] in r.clients
    && r.fdById[u.id] !in left && r.clients[r.fdById[u.id]].nickname == u.nickname
  }

  lemma GatherOne(r: Registry, left: set<Fd>, fd: Fd, before: seq<UserInfo>)
    requires r.ValidIds() && fd in left && left <= r.clients.Keys
    requires forall u :: u in before <==> Gathered(r, left, u)
    ensures var user := UserInfo(r.clients[fd].id, r.clients[fd].nickname);
            && (forall u :: u in before + [user] <==> Gathered(r, left - {fd}, u))
            && forall i :: 0 <= i < |before| ==> before[i].id != user.id
  {
    var user := UserInfo(r.clients[fd].id, r.clients[fd].nickname);
    forall u
      ensures u in before + [user] <==> Gathered(r, left - {fd}, u)
    {
      assert u in before + [user] <==> u in before || u == user;
      if Gathered(r, left - {fd}, u) && r.fdById[u.id] == fd {
        assert u.id == r.clients[fd].id;
      }
    }
    assert forall i :: 0 <= i < |before| ==> before[i] in before;
  }
}
