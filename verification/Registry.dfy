/** server/model: the three indexes the server keeps over its connected clients. */
module Registry {
  import opened Bytes
  import opened Messages

  type Fd = int

  datatype ClientRecord = ClientRecord(fd: Fd, id: nat, nickname: seq<Byte>, registered: bool)

  datatype Registry = Registry(clients: map<Fd, ClientRecord>, fdById: map<nat, Fd>, idByNickname: map<seq<Byte>, nat>) {

    /** clients and fdById are mutual inverses. */
    ghost predicate ValidIds() {
      && (forall fd :: fd in clients ==>
            clients[fd].fd == fd && clients[fd].id in fdById && fdById[clients[fd].id] == fd)
      && (forall id :: id in fdById ==> fdById[id] in clients && clients[fdById[id]].id == id)
    }

    /** idByNickname is exactly the inverse of the non-empty nicknames, and never holds "" or "all". */
    ghost predicate ValidNames()
      requires ValidIds()
    {
      && (forall fd :: fd in clients && clients[fd].nickname != [] ==>
            clients[fd].nickname in idByNickname && idByNickname[clients[fd].nickname] == clients[fd].id)
      && (forall n :: n in idByNickname ==>
            && n != [] && n != BroadcastRecipient() && |n| <= MAX_U16_COUNT
            && idByNickname[n] in fdById && clients[fdById[idByNickname[n]]].nickname == n)
    }

    ghost predicate Valid() {
      ValidIds() && ValidNames()
    }

    function Add(fd: Fd, id: nat): Registry {
      Registry(clients[fd := ClientRecord(fd, id, [], false)], fdById[id := fd], idByNickname)
    }

    function Remove(fd: Fd): Registry {
      if fd !in clients then this
      else
        var record := clients[fd];
        Registry(clients - {fd}, fdById - {record.id},
                 if record.nickname != [] then idByNickname - {record.nickname} else idByNickname)
    }

    function SetNickname(fd: Fd, nickname: seq<Byte>): Registry {
      if fd !in clients then this
      else
        var record := clients[fd];
        var freed := if record.nickname != [] then idByNickname - {record.nickname} else idByNickname;
        Registry(clients[fd := record.(nickname := nickname, registered := true)], fdById, freed[nickname := record.id])
    }

    predicate NicknameTakenByOther(nickname: seq<Byte>, id: nat) {
      nickname in idByNickname && idByNickname[nickname] != id
    }

    /** The id-to-nickname view of the registry, which presence messages let clients copy. */
    ghost function Names(): (r: map<nat, seq<Byte>>)
      requires ValidIds()
    {
      map id | id in fdById :: clients[fdById[id]].nickname
    }

    /** The id a chat names, if the registry knows it; decoding the nickname may throw. */
    function ResolveRecipient(chat: ChatPayload): Result<Option<nat>> {
      if chat.recipientTag == RECIPIENT_BY_ID then
        if |chat.recipientData| < 4 then Ok(None)
        else
          var id := ReadU32(chat.recipientData);
          Ok(if id in fdById then Some(id) else None)
      else if chat.recipientTag == RECIPIENT_BY_NICKNAME then
        match DecodeString(chat.recipientData)
        case Thrown(what) => Thrown(what)
        case Ok(nickname) => Ok(if nickname in idByNickname then Some(idByNickname[nickname]) else None)
      else Ok(None)
    }

    function RecipientLabel(chat: ChatPayload): Result<seq<Byte>> {
      if chat.recipientTag == RECIPIENT_BROADCAST then Ok(BroadcastRecipient())
      else if chat.recipientTag == RECIPIENT_BY_ID && |chat.recipientData| >= 4 then
        Ok(Decimal(ReadU32(chat.recipientData)))
      else if chat.recipientTag == RECIPIENT_BY_NICKNAME then DecodeString(chat.recipientData)
      else Ok(Text("?"))
    }
  }

  lemma AddKeepsValid(r: Registry, fd: Fd, id: nat)
    requires r.Valid() && fd !in r.clients && id !in r.fdById
    ensures r.Add(fd, id).Valid()
    ensures r.Add(fd, id).Names() == r.Names()[id := []]
  {
    AddKeepsIds(r, fd, id);
    AddKeepsNames(r, fd, id);
  }

  lemma AddKeepsNames(r: Registry, fd: Fd, id: nat)
    requires r.Valid() && r.Add(fd, id).ValidIds() && fd !in r.clients && id !in r.fdById
    ensures r.Add(fd, id).ValidNames()
  {
    var r' := r.Add(fd, id);
    forall f | f in r'.clients && r'.clients[f].nickname != []
      ensures r'.clients[f].nickname in r'.idByNickname && r'.idByNickname[r'.clients[f].nickname] == r'.clients[f].id
    {
      assert f in r.clients && r'.clients[f] == r.clients[f];
    }
    forall n | n in r'.idByNickname
      ensures r'.idByNickname[n] in r'.fdById && r'.clients[r'.fdById[r'.idByNickname[n]]].nickname == n
    {
      HolderIsKept(r, fd, id, n);
    }
  }

  lemma HolderIsKept(r: Registry, fd: Fd, id: nat, n: seq<Byte>)
    requires r.Valid() && fd !in r.clients && id !in r.fdById && n in r.idByNickname
    ensures var r' := r.Add(fd, id);
            r.idByNickname[n] in r'.fdById && r'.fdById[r.idByNickname[n]] in r'.clients
            && r'.clients[r'.fdById[r.idByNickname[n]]].nickname == n
  {
    assert r.clients[r.fdById[r.idByNickname[n]]].nickname == n;
  }

  lemma AddKeepsIds(r: Registry, fd: Fd, id: nat)
    requires r.ValidIds() && fd !in r.clients && id !in r.fdById
    ensures r.Add(fd, id).ValidIds()
    ensures r.Add(fd, id).Names() == r.Names()[id := []]
  {
    var r' := r.Add(fd, id);
    assert forall f :: f in r.clients ==> r'.clients[f] == r.clients[f];
  }

  lemma RemoveKeepsValid(r: Registry, fd: Fd)
    requires r.Valid()
    ensures r.Remove(fd).Valid()
    ensures fd in r.clients ==> r.Remove(fd).Names() == r.Names() - {r.clients[fd].id}
  {
    if fd in r.clients {
      var r' := r.Remove(fd);
      assert forall f :: f in r'.clients ==> r'.clients[f] == r.clients[f] && r.clients[f].id != r.clients[fd].id;
      assert forall i :: i in r'.fdById ==> r'.fdById[i] == r.fdById[i] != fd;
      assert r'.ValidIds();
      forall f | f in r'.clients && r'.clients[f].nickname != []
        ensures r'.clients[f].nickname in r'.idByNickname && r'.idByNickname[r'.clients[f].nickname] == r'.clients[f].id
      {
        assert r.idByNickname[r.clients[f].nickname] == r.clients[f].id;
      }
      forall n | n in r'.idByNickname
        ensures r'.idByNickname[n] in r'.fdById && r'.clients[r'.fdById[r'.idByNickname[n]]].nickname == n
      {
        assert r.clients[r.fdById[r.idByNickname[n]]].nickname == n;
      }
    }
  }

  /** The register handler's guards: RegisterMessageHandler refuses the other nicknames before set_nickname. */
  predicate MayTakeNickname(r: Registry, fd: Fd, nickname: seq<Byte>)
    requires fd in r.clients
  {
    && nickname != [] && nickname != BroadcastRecipient() && |nickname| <= MAX_U16_COUNT
    && !r.NicknameTakenByOther(nickname, r.clients[fd].id)
  }

  lemma SetNicknameIds(r: Registry, fd: Fd, nickname: seq<Byte>)
    requires r.Valid() && fd in r.clients
    ensures r.SetNickname(fd, nickname).ValidIds()
    ensures r.SetNickname(fd, nickname).Names() == r.Names()[r.clients[fd].id := nickname]
  {
    var r' := r.SetNickname(fd, nickname);
    assert forall f :: f in r.clients && f != fd ==> r'.clients[f] == r.clients[f];
  }

  lemma SetNicknameKeepsValid(r: Registry, fd: Fd, nickname: seq<Byte>)
    requires r.Valid() && fd in r.clients && MayTakeNickname(r, fd, nickname)
    ensures r.SetNickname(fd, nickname).Valid()
  {
    var r' := r.SetNickname(fd, nickname);
    SetNicknameIds(r, fd, nickname);
    forall f | f in r'.clients && r'.clients[f].nickname != []
      ensures r'.clients[f].nickname in r'.idByNickname && r'.idByNickname[r'.clients[f].nickname] == r'.clients[f].id
    {
      if f != fd {
        assert r.idByNickname[r.clients[f].nickname] == r.clients[f].id;
        assert r.clients[f].id != r.clients[fd].id;
      }
    }
    forall n | n in r'.idByNickname
      ensures n != [] && n != BroadcastRecipient() && |n| <= MAX_U16_COUNT
      ensures r'.idByNickname[n] in r'.fdById && r'.clients[r'.fdById[r'.idByNickname[n]]].nickname == n
    {
      if n != nickname {
        assert r.clients[r.fdById[r.idByNickname[n]]].nickname == n;
        assert r.fdById[r.idByNickname[n]] != fd;
      }
    }
  }

  /**
   * set_nickname keeps the nickname index exact precisely when the nickname is non-empty, is not the
   * reserved word, fits its wire field and is not held by another client: the register handler's
   * guards are necessary as well as sufficient.
   */
  lemma SetNicknameValidIff(r: Registry, fd: Fd, nickname: seq<Byte>)
    requires r.Valid() && fd in r.clients
    ensures r.SetNickname(fd, nickname).Valid() <==> MayTakeNickname(r, fd, nickname)
  {
    var r' := r.SetNickname(fd, nickname);
    SetNicknameIds(r, fd, nickname);
    if MayTakeNickname(r, fd, nickname) {
      SetNicknameKeepsValid(r, fd, nickname);
    } else if r.NicknameTakenByOther(nickname, r.clients[fd].id) {
      var other := r.fdById[r.idByNickname[nickname]];
      assert other != fd && r'.clients[other].nickname == nickname;
      assert r'.idByNickname[nickname] == r.clients[fd].id != r.clients[other].id;
    } else {
      assert nickname in r'.idByNickname;
    }
  }

  /** Every recipient the registry resolves is connected, so no lookup of its descriptor can fail. */
  lemma ResolvedIsConnected(r: Registry, chat: ChatPayload)
    requires r.Valid() && r.ResolveRecipient(chat).Ok? && r.ResolveRecipient(chat).value.Some?
    ensures r.ResolveRecipient(chat).value.value in r.fdById
    ensures chat.recipientTag == RECIPIENT_BY_NICKNAME ==>
              var id := r.ResolveRecipient(chat).value.value;
              r.Names()[id] == DecodeString(chat.recipientData).value
  {
  }

  /** Every nickname in the registry fits its wire field. */
  lemma RecordFits(r: Registry, fd: Fd)
    requires r.Valid() && fd in r.clients
    ensures |r.clients[fd].nickname| <= MAX_U16_COUNT
  {
    assert r.clients[fd].nickname != [] ==> r.clients[fd].nickname in r.idByNickname;
  }
}
