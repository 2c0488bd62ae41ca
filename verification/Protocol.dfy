/** The loops of common/Protocol.cpp, which append to a vector or advance an offset, against module Codec. */
module Protocol {
  import opened Bytes
  import opened Messages
  import opened Codec

  // ----- list encoders -----

  lemma {:induction false} EncodeIdsAppend(ids: seq<nat>, id: nat)
    ensures EncodeIds(ids + [id]) == EncodeIds(ids) + WriteU32(id)
  {
    if ids == [] {
      assert ids + [id] == [id] && [id][1..] == [];
    } else {
      EncodeIdsAppend(ids[1..], id);
      assert (ids + [id])[1..] == ids[1..] + [id];
    }
  }

  method EncodeBannedIds(ids: seq<nat>) returns (r: Result<seq<Byte>>)
    ensures r == Encode(BannedIds(ids))
  {
    if |ids| > MAX_U16_COUNT {
      return Thrown(Text("Too many banned ids"));
    }
    var out := WriteU16(|ids|);
    for i := 0 to |ids|
      invariant out == WriteU16(|ids|) + EncodeIds(ids[..i])
    {
      EncodeIdsAppend(ids[..i], ids[i]);
      assert ids[..i + 1] == ids[..i] + [ids[i]];
      out := out + WriteU32(ids[i]);
    }
    assert ids[..|ids|] == ids;
    return Ok(out);
  }

  /** Encoding a list piece by piece: the first exception wins. */
  function Joined(a: Result<seq<Byte>>, b: Result<seq<Byte>>): Result<seq<Byte>> {
    match a
    case Thrown(what) => Thrown(what)
    case Ok(x) => match b case Thrown(what) => Thrown(what) case Ok(y) => Ok(x + y)
  }

  lemma {:induction false} EncodeUsersConcat(a: seq<UserInfo>, b: seq<UserInfo>)
    ensures EncodeUsers(a + b) == Joined(EncodeUsers(a), EncodeUsers(b))
  {
    if a == [] {
      assert a + b == b;
      if EncodeUsers(b).Ok? {
        assert [] + EncodeUsers(b).value == EncodeUsers(b).value;
      }
    } else {
      EncodeUsersConcat(a[1..], b);
      assert (a + b)[1..] == a[1..] + b;
      if EncodeUser(a[0]).Ok? && EncodeUsers(a[1..]).Ok? && EncodeUsers(b).Ok? {
        var x, y, z := EncodeUser(a[0]).value, EncodeUsers(a[1..]).value, EncodeUsers(b).value;
        assert x + (y + z) == (x + y) + z;
      }
    }
  }

  lemma EncodeOneUser(user: UserInfo)
    ensures EncodeUsers([user]) == EncodeUser(user)
  {
    assert [user][1..] == [];
    if EncodeUser(user).Ok? {
      assert EncodeUser(user).value + [] == EncodeUser(user).value;
    }
  }

  method EncodeUsersList(users: seq<UserInfo>) returns (r: Result<seq<Byte>>)
    ensures r == Encode(UsersList(users))
  {
    hide WriteU16, EncodeUser;
    if |users| > MAX_U16_COUNT {
      return Thrown(Text("Too many users"));
    }
    var out := WriteU16(|users|);
    ghost var written: seq<Byte> := [];
    for i := 0 to |users|
      invariant EncodeUsers(users[..i]) == Ok(written) && out == WriteU16(|users|) + written
    {
      var bytes := EncodeUser(users[i]);
      assert users[..i + 1] == users[..i] + [users[i]];
      EncodeUsersConcat(users[..i], [users[i]]);
      EncodeOneUser(users[i]);
      if bytes.Thrown? {
        assert users == users[..i + 1] + users[i + 1..];
        EncodeUsersConcat(users[..i + 1], users[i + 1..]);
        return bytes;
      }
      out := out + bytes.value;
      written := written + bytes.value;
    }
    assert users[..|users|] == users;
    return Ok(out);
  }

  // ----- decoders that advance an offset -----

  method DecodeUserInfo(data: seq<Byte>, offset: nat) returns (r: Result<UserInfo>, end: nat)
    requires offset <= |data|
    ensures r == DecodeUser(data[offset..])
    ensures end <= |data| && (r.Ok? ==> end == offset + UserSize(r.value))
  {
    end := offset;
    if |data| < offset + 4 {
      return Thrown(Text("UserInfo id too short")), end;
    }
    var id := ReadU32(data[offset..]);
    end := end + 4;
    assert data[offset..][4..] == data[end..];
    var nickname := DecodeString(data[end..]);
    if nickname.Thrown? {
      return Thrown(nickname.what), end;
    }
    end := end + 2 + |nickname.value|;
    return Ok(UserInfo(id, nickname.value)), end;
  }

  /** The users decoded so far, then the rest. */
  function Prepended(users: seq<UserInfo>, rest: Result<seq<UserInfo>>): Result<seq<UserInfo>> {
    match rest case Thrown(what) => Thrown(what) case Ok(more) => Ok(users + more)
  }

  lemma DecodeUsersStep(users: seq<UserInfo>, user: UserInfo, data: seq<Byte>, count: nat)
    requires DecodeUser(data) == Ok(user) && count > 0
    ensures Prepended(users, DecodeUsers(data, count)) == Prepended(users + [user], DecodeUsers(data[UserSize(user)..], count - 1))
  {
    var rest := DecodeUsers(data[UserSize(user)..], count - 1);
    if rest.Ok? {
      assert users + ([user] + rest.value) == (users + [user]) + rest.value;
    }
  }

  method DecodeUsersListPayload(payload: seq<Byte>) returns (r: Result<AppMessage>)
    ensures r == DecodeUsersList(payload)
  {
    hide ReadU16, DecodeUser, UserSize;
    if |payload| < 2 {
      return Thrown(Text("UsersList payload too short"));
    }
    var count := ReadU16(payload);
    var offset := 2;
    var users: seq<UserInfo> := [];
    ghost var all := DecodeUsers(payload[2..], count);
    assert Prepended([], all) == all by {
      assert all.Ok? ==> [] + all.value == all.value;
    }
    for i := 0 to count
      invariant offset <= |payload|
      invariant Prepended(users, DecodeUsers(payload[offset..], count - i)) == all
    {
      var user, end := DecodeUserInfo(payload, offset);
      if user.Thrown? {
        return Thrown(user.what);
      }
      DecodeUsersStep(users, user.value, payload[offset..], count - i);
      assert payload[offset..][UserSize(user.value)..] == payload[end..];
      users := users + [user.value];
      offset := end;
    }
    assert users + [] == users;
    return Ok(UsersList(users));
  }

  method DecodeBannedIdsPayload(payload: seq<Byte>) returns (r: Result<AppMessage>)
    ensures r == DecodeBannedIds(payload)
  {
    if |payload| < 2 {
      return Thrown(Text("BannedIds payload too short"));
    }
    var count := ReadU16(payload);
    var offset := 2;
    if |payload| < offset + count * 4 {
      return Thrown(Text("BannedIds payload truncated"));
    }
    var ids: seq<nat> := [];
    ghost var all := DecodeIds(payload[2..], count);
    for i := 0 to count
      invariant offset == 2 + 4 * i
      invariant ids + DecodeIds(payload[offset..], count - i) == all
    {
      assert payload[offset..][4..] == payload[offset + 4..];
      assert DecodeIds(payload[offset..], count - i) == [ReadU32(payload[offset..])] + DecodeIds(payload[offset + 4..], count - i - 1);
      ids := ids + [ReadU32(payload[offset..])];
      offset := offset + 4;
    }
    assert ids + [] == ids;
    return Ok(BannedIds(ids));
  }

  /** decode_app_message, with its loops. */
  method DecodeAppMessage(pdu: seq<Byte>) returns (r: Result<AppMessage>)
    ensures r == Decode(pdu)
    ensures forall m :: r == Ok(m) <==> Carries(pdu, m)
  {
    if |pdu| < 2 {
      r := Thrown(Text("PDU too short"));
    } else if pdu[0] != APP_FUNCTION_CODE {
      r := Thrown(Text("Unexpected function code"));
    } else {
      var payload := pdu[2..];
      match pdu[1]
      case 0x09 => r := DecodeUsersListPayload(payload);
      case 0x0C => r := DecodeBannedIdsPayload(payload);
      case _ => r := DecodePayload(pdu[1], payload);
    }
    forall m
      ensures r == Ok(m) <==> Carries(pdu, m)
    {
      DecodeIff(pdu, m);
    }
  }
}
