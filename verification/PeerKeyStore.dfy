/** common/crypto/PeerKeyStore.cpp: the key store, and its form on disk. */
module PeerKeyStore {
  import opened Bytes
  import opened Cipher
  import opened Client

  const KEY_STORE_VERSION: Byte := 1
  const ENTRY_SIZE: nat := 36

  /** What the setters let into a store: keys of the right size, and an identity once there is one. */
  ghost predicate Sized(s: KeyStore) {
    && ((s.secret == [] && s.public == []) || (|s.secret| == KEY_SIZE && |s.public| == KEY_SIZE))
    && (s.room.Some? ==> |s.room.value| == KEY_SIZE)
    && (forall id :: id in s.peers ==> id < U32_LIMIT && |s.peers[id]| == KEY_SIZE)
  }

  // ----- the bytes of a store -----

  /** order lists every peer once: one of the orders in which the hash map may be walked. */
  ghost predicate IsOrder(order: seq<nat>, ids: set<nat>) {
    && |order| == |ids|
    && (forall i :: 0 <= i < |order| ==> order[i] in ids)
    && (forall id :: id in ids ==> id in order)
  }

  function Entries(order: seq<nat>, peers: map<nat, seq<Byte>>): seq<Byte>
    requires forall i :: 0 <= i < |order| ==> order[i] in peers
  {
    if order == [] then [] else WriteU32(order[0]) + peers[order[0]] + Entries(order[1..], peers)
  }

  function Header(s: KeyStore): seq<Byte> {
    [KEY_STORE_VERSION] + s.secret + s.public + (if s.room.Some? then [1] + s.room.value else [0])
  }

  function Blob(s: KeyStore, order: seq<nat>): seq<Byte>
    requires forall i :: 0 <= i < |order| ==> order[i] in s.peers
  {
    Header(s) + WriteU16(|order|) + Entries(order, s.peers)
  }

  // ----- reading them -----

  /** deserialize's loop over the peer entries: the peers read and the exception, if any. */
  function RestoredPeers(peers: map<nat, seq<Byte>>, data: seq<Byte>, count: nat): (map<nat, seq<Byte>>, Option<seq<Byte>>)
    decreases count
  {
    if count == 0 then (peers, None)
    else if |data| < ENTRY_SIZE then (peers, Some(Text("truncated peer entry in keystore")))
    else RestoredPeers(peers[ReadU32(data) := data[4..ENTRY_SIZE]], data[ENTRY_SIZE..], count - 1)
  }

  /** deserialize: the store it leaves, overwritten as far as it got, and the exception, if any. */
  function Restored(s: KeyStore, blob: seq<Byte>): (KeyStore, Option<seq<Byte>>) {
    if |blob| < 68 then (s, Some(Text("keystore blob too short")))
    else if blob[0] != KEY_STORE_VERSION then (s, Some(Text("unsupported keystore version")))
    else
      var keys := s.(secret := blob[1..33], public := blob[33..65], room := None);
      if blob[65] == 0 then RestoredTail(keys, blob, 66)
      else if |blob| < 98 then (keys, Some(Text("truncated room key in keystore")))
      else RestoredTail(keys.(room := Some(blob[66..98])), blob, 98)
  }

  function RestoredTail(s: KeyStore, blob: seq<Byte>, offset: nat): (KeyStore, Option<seq<Byte>>)
    requires offset <= |blob|
  {
    if |blob| < offset + 2 then (s, Some(Text("truncated peer count in keystore")))
    else
      var (peers, thrown) := RestoredPeers(map[], blob[offset + 2..], ReadU16(blob[offset..]));
      (s.(peers := peers), thrown)
  }

  // ----- the round trip -----

  function Listed(order: seq<nat>, peers: map<nat, seq<Byte>>): map<nat, seq<Byte>>
    requires forall i :: 0 <= i < |order| ==> order[i] in peers
  {
    map id | id in order :: peers[id]
  }

  lemma ListedStep(order: seq<nat>, peers: map<nat, seq<Byte>>, before: map<nat, seq<Byte>>)
    requires order != [] && forall i :: 0 <= i < |order| ==> order[i] in peers
    ensures before[order[0] := peers[order[0]]] + Listed(order[1..], peers) == before + Listed(order, peers)
  {
    assert order == [order[0]] + order[1..];
  }

  /** One entry is read and the rest remains. */
  lemma RestoresOne(id: nat, key: seq<Byte>, others: seq<Byte>, rest: seq<Byte>, before: map<nat, seq<Byte>>, count: nat)
    requires id < U32_LIMIT && |key| == KEY_SIZE && count > 0
    ensures RestoredPeers(before, WriteU32(id) + key + others + rest, count) ==
            RestoredPeers(before[id := key], others + rest, count - 1)
  {
    hide ReadU32, WriteU32;
    EntryFront(id, key, others, rest);
  }

  lemma {:induction false} RestoresEntries(order: seq<nat>, peers: map<nat, seq<Byte>>, before: map<nat, seq<Byte>>, rest: seq<Byte>)
    requires forall i :: 0 <= i < |order| ==> order[i] in peers && order[i] < U32_LIMIT && |peers[order[i]]| == KEY_SIZE
    ensures RestoredPeers(before, Entries(order, peers) + rest, |order|) == (before + Listed(order, peers), None)
  {
    hide ReadU32, WriteU32, Listed;
    if order == [] {
      NoneListed(peers, before);
    } else {
      var id, others := order[0], order[1..];
      assert Entries(order, peers) == WriteU32(id) + peers[id] + Entries(others, peers);
      RestoresOne(id, peers[id], Entries(others, peers), rest, before, |order|);
      hide RestoredPeers;
      RestoresEntries(others, peers, before[id := peers[id]], rest);
      ListedStep(order, peers, before);
    }
  }

  lemma NoneListed(peers: map<nat, seq<Byte>>, before: map<nat, seq<Byte>>)
    ensures before + Listed([], peers) == before
  {
  }

  lemma EntryFront(id: nat, key: seq<Byte>, others: seq<Byte>, rest: seq<Byte>)
    requires id < U32_LIMIT && |key| == KEY_SIZE
    ensures var data := WriteU32(id) + key + others + rest;
            ReadU32(data) == id && data[4..ENTRY_SIZE] == key && data[ENTRY_SIZE..] == others + rest
  {
    var data := WriteU32(id) + key + others + rest;
    assert data[..2] == WriteU32(id)[..2] && data[2..][..2] == WriteU32(id)[2..][..2];
    assert ReadU16(data[2..]) == ReadU16(WriteU32(id)[2..]);
  }

  /** The parts of a blob, at the offsets deserialize looks for them. */
  lemma BlobParts(s: KeyStore, order: seq<nat>, rest: seq<Byte>)
    requires Sized(s) && |s.secret| == KEY_SIZE && |order| <= MAX_U16_COUNT
    requires forall i :: 0 <= i < |order| ==> order[i] in s.peers
    ensures var blob := Blob(s, order) + rest;
            var offset := if s.room.Some? then 98 else 66;
            && |blob| >= 68 && blob[0] == KEY_STORE_VERSION && blob[1..33] == s.secret && blob[33..65] == s.public
            && blob[65] == (if s.room.Some? then 1 else 0)
            && |blob| >= offset + 2 && (s.room.Some? ==> blob[66..98] == s.room.value)
            && ReadU16(blob[offset..]) == |order| && blob[offset + 2..] == Entries(order, s.peers) + rest
  {
    var blob := Blob(s, order) + rest;
    var offset := if s.room.Some? then 98 else 66;
    var header, count, entries := Header(s), WriteU16(|order|), Entries(order, s.peers);
    assert |header| == offset;
    assert blob == header + (count + (entries + rest));
    assert blob[..offset] == header;
    assert header[1..33] == s.secret && header[33..65] == s.public;
    assert blob[1..33] == header[1..33] && blob[33..65] == header[33..65];
    assert blob[offset..][..2] == count;
  }

  lemma TailRestores(keys: KeyStore, s: KeyStore, order: seq<nat>, blob: seq<Byte>, offset: nat, rest: seq<Byte>)
    requires Sized(s) && IsOrder(order, s.peers.Keys)
    requires |blob| >= offset + 2 && ReadU16(blob[offset..]) == |order| && blob[offset + 2..] == Entries(order, s.peers) + rest
    ensures RestoredTail(keys, blob, offset) == (keys.(peers := s.peers), None)
  {
    hide Entries, RestoredPeers, ReadU16;
    RestoresEntries(order, s.peers, map[], rest);
    assert map[] + Listed(order, s.peers) == s.peers;
  }

  /**
   * Every store with an identity and at most 65535 peers is read back exactly, whatever was in memory
   * before and in whatever order the peers were written.
   */
  lemma KeyStoreRoundTrip(s: KeyStore, order: seq<nat>, before: KeyStore, rest: seq<Byte>)
    requires Sized(s) && s.secret != [] && |s.peers| <= MAX_U16_COUNT && IsOrder(order, s.peers.Keys)
    ensures Restored(before, Blob(s, order) + rest) == (s, None)
  {
    hide Blob, Entries, RestoredTail, ReadU16;
    assert |order| == |s.peers|;
    BlobParts(s, order, rest);
    var blob, offset := Blob(s, order) + rest, if s.room.Some? then 98 else 66;
    var keys := before.(secret := s.secret, public := s.public, room := s.room);
    TailRestores(keys, s, order, blob, offset, rest);
  }

  // ----- which blobs are accepted -----

  lemma {:induction false} RestoredPeersIff(peers: map<nat, seq<Byte>>, data: seq<Byte>, count: nat)
    requires forall id :: id in peers ==> id < U32_LIMIT && |peers[id]| == KEY_SIZE
    ensures RestoredPeers(peers, data, count).1 == None <==> |data| >= ENTRY_SIZE * count
    ensures forall id :: id in RestoredPeers(peers, data, count).0 ==>
              id < U32_LIMIT && |RestoredPeers(peers, data, count).0[id]| == KEY_SIZE
    decreases count
  {
    if count > 0 && |data| >= ENTRY_SIZE {
      RestoredPeersIff(peers[ReadU32(data) := data[4..ENTRY_SIZE]], data[ENTRY_SIZE..], count - 1);
    }
  }

  /** Where the peer count is. */
  function CountOffset(blob: seq<Byte>): nat
    requires |blob| >= 68
  {
    if blob[65] == 0 then 66 else 98
  }

  /**
   * A blob is accepted exactly if it has the version byte and is long enough for the room key it
   * announces and the peers it counts; and then the store is one the setters could have built.
   */
  lemma AcceptedIff(s: KeyStore, blob: seq<Byte>)
    ensures Restored(s, blob).1 == None <==>
            && |blob| >= 68 && blob[0] == KEY_STORE_VERSION && |blob| >= CountOffset(blob) + 2
            && |blob| >= CountOffset(blob) + 2 + ENTRY_SIZE * ReadU16(blob[CountOffset(blob)..])
    ensures Restored(s, blob).1 == None ==> Sized(Restored(s, blob).0) && Restored(s, blob).0.secret != []
  {
    if |blob| >= 68 && |blob| >= CountOffset(blob) + 2 {
      var offset := CountOffset(blob);
      RestoredPeersIff(map[], blob[offset + 2..], ReadU16(blob[offset..]));
    }
  }

  // ----- the class -----

  class PeerKeyStore {
    var identitySecret: seq<Byte>
    var identityPublic: seq<Byte>
    var roomKey: Option<seq<Byte>>
    var peers: map<nat, seq<Byte>>

    ghost function View(): KeyStore
      reads this
    {
      KeyStore(identitySecret, identityPublic, roomKey, peers)
    }

    constructor ()
      ensures View() == KeyStore([], [], None, map[]) && Sized(View())
    {
      identitySecret, identityPublic, roomKey, peers := [], [], None, map[];
    }

    method SetIdentity(secret: seq<Byte>, public: seq<Byte>) returns (thrown: Option<seq<Byte>>)
      requires Sized(View())
      modifies this
      ensures Sized(View())
      ensures thrown == if |secret| == 32 && |public| == 32 then None else Some(Text("invalid identity key sizes"))
      ensures View() == if thrown.None? then old(View()).(secret := secret, public := public) else old(View())
    {
      if |secret| != KEY_SIZE || |public| != KEY_SIZE {
        return Some(Text("invalid identity key sizes"));
      }
      identitySecret, identityPublic := secret, public;
      return None;
    }

    method SetRoomKey(room: seq<Byte>) returns (thrown: Option<seq<Byte>>)
      requires Sized(View())
      modifies this`roomKey
      ensures Sized(View())
      ensures thrown == if |room| == 32 then None else Some(Text("invalid room key size"))
      ensures View() == if thrown.None? then old(View()).(room := Some(room)) else old(View())
    {
      if |room| != KEY_SIZE {
        return Some(Text("invalid room key size"));
      }
      roomKey := Some(room);
      return None;
    }

    method ClearRoomKey()
      requires Sized(View())
      modifies this`roomKey
      ensures Sized(View()) && View() == old(View()).(room := None)
    {
      roomKey := None;
    }

    method SetPeerPublic(id: nat, public: seq<Byte>) returns (thrown: Option<seq<Byte>>)
      requires Sized(View()) && id < U32_LIMIT
      modifies this`peers
      ensures Sized(View())
      ensures thrown == if |public| == 32 then None else Some(Text("invalid peer public key size"))
      ensures View() == if thrown.None? then old(View()).(peers := old(peers)[id := public]) else old(View())
    {
      if |public| != KEY_SIZE {
        return Some(Text("invalid peer public key size"));
      }
      peers := peers[id := public];
      return None;
    }

    method ErasePeer(id: nat)
      requires Sized(View())
      modifies this`peers
      ensures Sized(View()) && View() == old(View()).(peers := old(peers) - {id})
    {
      peers := peers - {id};
    }

    method ErasePeers(ids: seq<nat>)
      requires Sized(View())
      modifies this`peers
      ensures Sized(View()) && View() == old(View()).(peers := old(peers) - (set id | id in ids))
    {
      for i := 0 to |ids|
        invariant peers == old(peers) - (set id | id in ids[..i])
      {
        peers := peers - {ids[i]};
        assert ids[..i + 1] == ids[..i] + [ids[i]];
      }
      assert ids[..|ids|] == ids;
    }

    /** The loop of serialize over the hash map. */
    method AppendPeers(front: seq<Byte>) returns (out: seq<Byte>, ghost order: seq<nat>)
      ensures IsOrder(order, peers.Keys) && out == front + Entries(order, peers)
    {
      hide Entries, WriteU32;
      order := [];
      out := front;
      NoEntries(peers);
      var left := peers.Keys;
      while left != {}
        invariant left <= peers.Keys && |order| + |left| == |peers.Keys|
        invariant forall i :: 0 <= i < |order| ==> order[i] in peers
        invariant forall id :: id in peers ==> id in order || id in left
        invariant out == front + Entries(order, peers)
        decreases |left|
      {
        var id :| id in left;
        EntriesAppend(order, peers, id);
        out := out + WriteU32(id) + peers[id];
        order := order + [id];
        left := left - {id};
      }
    }

    /** serialize: the peers go out in an order of the hash map's choosing. */
    method Serialize() returns (r: Result<seq<Byte>>, ghost order: seq<nat>)
      ensures r.Ok? <==> identitySecret != [] && |peers| <= MAX_U16_COUNT
      ensures r.Ok? ==> IsOrder(order, peers.Keys) && r.value == Blob(View(), order)
      ensures r.Thrown? ==>
                r.what == Text(if identitySecret == [] then "cannot serialize keystore without identity" else "too many peer keys")
    {
      order := [];
      if identitySecret == [] {
        r := Thrown(Text("cannot serialize keystore without identity"));
        return;
      }
      var out := [KEY_STORE_VERSION] + identitySecret + identityPublic;
      out := out + [if roomKey.Some? then 1 else 0];
      if roomKey.Some? {
        out := out + roomKey.value;
      }
      assert out == Header(View());
      if |peers| > MAX_U16_COUNT {
        r := Thrown(Text("too many peer keys"));
        return;
      }
      hide Header, Entries, WriteU16;
      out, order := AppendPeers(out + WriteU16(|peers|));
      r := Ok(out);
    }

    /** The loop of deserialize over the peer entries. */
    method ReadPeers(blob: seq<Byte>, start: nat, count: nat) returns (thrown: Option<seq<Byte>>)
      requires start <= |blob|
      modifies this`peers
      ensures (peers, thrown) == RestoredPeers(map[], blob[start..], count)
    {
      hide ReadU32;
      var offset := start;
      peers := map[];
      ghost var all := RestoredPeers(map[], blob[offset..], count);
      for i := 0 to count
        invariant 0 <= offset <= |blob|
        invariant RestoredPeers(peers, blob[offset..], count - i) == all
      {
        if |blob| < offset + ENTRY_SIZE {
          return Some(Text("truncated peer entry in keystore"));
        }
        ghost var data := blob[offset..];
        assert data[4..ENTRY_SIZE] == blob[offset + 4..offset + ENTRY_SIZE] && data[ENTRY_SIZE..] == blob[offset + ENTRY_SIZE..];
        var id := ReadU32(blob[offset..]);
        offset := offset + 4;
        var key := blob[offset..offset + KEY_SIZE];
        offset := offset + KEY_SIZE;
        peers := peers[id := key];
      }
      return None;
    }

    /** deserialize: fields are overwritten as the blob is read, also when it turns out to be truncated. */
    method Deserialize(blob: seq<Byte>) returns (thrown: Option<seq<Byte>>)
      modifies this
      ensures (View(), thrown) == Restored(old(View()), blob)
    {
      var offset := 0;
      if |blob| < 68 {
        return Some(Text("keystore blob too short"));
      }
      if blob[offset] != KEY_STORE_VERSION {
        return Some(Text("unsupported keystore version"));
      }
      offset := offset + 1;
      identitySecret := blob[offset..offset + KEY_SIZE];
      offset := offset + KEY_SIZE;
      identityPublic := blob[offset..offset + KEY_SIZE];
      offset := offset + KEY_SIZE;
      var hasRoom := blob[offset] != 0;
      offset := offset + 1;
      roomKey := None;
      if hasRoom {
        if |blob| < offset + KEY_SIZE {
          return Some(Text("truncated room key in keystore"));
        }
        roomKey := Some(blob[offset..offset + KEY_SIZE]);
        offset := offset + KEY_SIZE;
      }
      assert Restored(old(View()), blob) == RestoredTail(View(), blob, offset);
      if |blob| < offset + 2 {
        return Some(Text("truncated peer count in keystore"));
      }
      hide Restored, RestoredPeers, ReadU16;
      thrown := ReadPeers(blob, offset + 2, ReadU16(blob[offset..]));
    }
  }

  lemma NoEntries(peers: map<nat, seq<Byte>>)
    ensures Entries([], peers) == []
  {
  }

  lemma {:induction false} EntriesAppend(order: seq<nat>, peers: map<nat, seq<Byte>>, id: nat)
    requires id in peers && forall i :: 0 <= i < |order| ==> order[i] in peers
    ensures Entries(order + [id], peers) == Entries(order, peers) + WriteU32(id) + peers[id]
  {
    if order == [] {
      assert [id][1..] == [];
    } else {
      EntriesAppend(order[1..], peers, id);
      assert (order + [id])[1..] == order[1..] + [id];
    }
  }
}
