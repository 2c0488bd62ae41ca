/** ClientViewModel as a value; each function is what one critical section of crypto_mutex_ does. */
module Client {
  import opened Bytes
  import opened Messages
  import opened Cipher

  datatype KeyStore = KeyStore(secret: seq<Byte>, public: seq<Byte>, room: Option<seq<Byte>>, peers: map<nat, seq<Byte>>)

  /** The client's copy of the membership: nickname_by_id_ and id_by_nickname_. */
  datatype View = View(nicknameById: map<nat, seq<Byte>>, idByNickname: map<seq<Byte>, nat>)

  datatype Client = Client(id: nat, store: KeyStore, offered: set<nat>, view: View)

  function EmptyView(): View {
    View(map[], map[])
  }

  // ----- membership -----

  function Named(v: View, id: nat, nickname: seq<Byte>): View {
    View(v.nicknameById[id := nickname], if nickname != [] then v.idByNickname[nickname := id] else v.idByNickname)
  }

  function AllNamed(v: View, users: seq<UserInfo>): View
    decreases |users|
  {
    if users == [] then v
    else
      var last := users[|users| - 1];
      Named(AllNamed(v, users[..|users| - 1]), last.id, last.nickname)
  }

  /** What handle_incoming does to the membership copy. */
  function Observed(v: View, m: AppMessage): View {
    match m
    case UserJoined(id, nickname) => Named(v, id, nickname)
    case UserLeft(id, nickname) =>
      View(v.nicknameById - {id}, if nickname != [] then v.idByNickname - {nickname} else v.idByNickname)
    case UsersList(users) => AllNamed(v, users)
    case _ => v
  }

  /** The membership copy of a client that has consumed the messages ms. */
  function ViewAfter(ms: seq<AppMessage>): View
    decreases |ms|
  {
    if ms == [] then EmptyView() else Observed(ViewAfter(ms[..|ms| - 1]), ms[|ms| - 1])
  }

  // ----- keys -----

  function PeersAfterOne(peers: map<nat, seq<Byte>>, m: AppMessage): map<nat, seq<Byte>> {
    match m
    case PeerKey(fromId, text) => if |text| == KEY_SIZE then peers[fromId := text] else peers
    case BannedIds(ids) => peers - (set id | id in ids)
    case _ => peers
  }

  /** The peer keys of a client that started with those saved in its key store and has consumed the messages ms. */
  function PeersAfter(saved: map<nat, seq<Byte>>, ms: seq<AppMessage>): map<nat, seq<Byte>>
    decreases |ms|
  {
    if ms == [] then saved else PeersAfterOne(PeersAfter(saved, ms[..|ms| - 1]), ms[|ms| - 1])
  }

  /** send_key_offer goes on to send exactly for a foreign, not yet offered peer. */
  predicate WantsOffer(c: Client, peer: nat) {
    peer != 0 && peer != c.id && peer !in c.offered
  }

  function OfferMarked(c: Client, peer: nat): Client {
    if WantsOffer(c, peer) then c.(offered := c.offered + {peer}) else c
  }

  /** What send_key_offer does when its send has failed. */
  function OfferUnmarked(c: Client, peer: nat): Client {
    c.(offered := c.offered - {peer})
  }

  /** maybe_send_room_key: the sealed room key for a peer whose public key is known. */
  function RoomKeyFor(cipher: Cipher, c: Client, peer: nat, nonce: seq<Byte>): Option<seq<Byte>> {
    if c.store.room.Some? && peer in c.store.peers && |c.store.peers[peer]| == KEY_SIZE
       && |c.store.secret| == KEY_SIZE && |c.store.room.value| == KEY_SIZE
    then Some(Seal(cipher, c.store.secret, c.store.peers[peer], nonce, c.store.room.value)) else None
  }

  /** The RoomKey case of handle_incoming. */
  function RoomKeyOpened(cipher: Cipher, c: Client, fromId: nat, sealed: seq<Byte>): Client {
    if fromId !in c.store.peers || |c.store.peers[fromId]| != KEY_SIZE || |c.store.secret| != KEY_SIZE then c
    else match Open(cipher, c.store.secret, c.store.peers[fromId], sealed)
         case None => c
         case Some(room) => if |room| == KEY_SIZE then c.(store := c.store.(room := Some(room))) else c
  }

  /** The first critical section of handle_incoming: everything but the sends that may follow. */
  function Absorbed(cipher: Cipher, c: Client, m: AppMessage): Client {
    match m
    case RoomKey(fromId, text) => RoomKeyOpened(cipher, c, fromId, text)
    case _ => c.(store := c.store.(peers := PeersAfterOne(c.store.peers, m)), view := Observed(c.view, m))
  }

  /** receive_assigned_id: take the id and, if told to, create the room key from fresh random bytes. */
  function Assigned(c: Client, m: AppMessage, random: seq<Byte>): Client
    requires m.AssignId?
  {
    var c' := c.(id := m.id);
    if m.createRoom && c.store.room.None? then c'.(store := c'.store.(room := Some(random))) else c'
  }

  /** decrypt_deliver: the peer key first, then the room key. */
  function Decrypted(cipher: Cipher, c: Client, fromId: nat, body: seq<Byte>): Option<seq<Byte>> {
    var byPeer := if fromId in c.store.peers && |c.store.peers[fromId]| == KEY_SIZE && |c.store.secret| == KEY_SIZE
                  then Open(cipher, c.store.secret, c.store.peers[fromId], body) else None;
    if byPeer.Some? then byPeer
    else if c.store.room.Some? && |c.store.room.value| == KEY_SIZE then cipher.unlock(c.store.room.value, body)
    else None
  }

  // ----- what opens what -----

  /** The key a client shares with fromId, if it holds that client's public key, opens the sealed bytes to plain. */
  ghost predicate OpensWithPeer(cipher: Cipher, c: Client, fromId: nat, sealed: seq<Byte>, plain: seq<Byte>) {
    && fromId in c.store.peers && |c.store.peers[fromId]| == 32 && |c.store.secret| == 32
    && cipher.unlock(cipher.shared(c.store.secret, c.store.peers[fromId]), sealed) == Some(plain)
  }

  ghost predicate OpensWithRoom(cipher: Cipher, c: Client, sealed: seq<Byte>, plain: seq<Byte>) {
    c.store.room.Some? && |c.store.room.value| == 32 && cipher.unlock(c.store.room.value, sealed) == Some(plain)
  }

  /**
   * decrypt_deliver gives a text if and only if the key shared with the sender opens the body to it, or
   * that key is missing or fails and the room key opens the body to it.
   */
  lemma DecryptedIff(cipher: Cipher, c: Client, fromId: nat, body: seq<Byte>, plain: seq<Byte>)
    ensures Decrypted(cipher, c, fromId, body) == Some(plain) <==>
            || OpensWithPeer(cipher, c, fromId, body, plain)
            || ((forall other :: !OpensWithPeer(cipher, c, fromId, body, other)) && OpensWithRoom(cipher, c, body, plain))
  {
    if fromId in c.store.peers && Open(cipher, c.store.secret, c.store.peers[fromId], body).Some? {
      var other := Open(cipher, c.store.secret, c.store.peers[fromId], body).value;
      assert OpensWithPeer(cipher, c, fromId, body, other) <==> |c.store.peers[fromId]| == 32 && |c.store.secret| == 32;
    }
  }

  /** Nothing is shown exactly if neither key opens the body to anything. */
  lemma NotDecryptedIff(cipher: Cipher, c: Client, fromId: nat, body: seq<Byte>)
    ensures Decrypted(cipher, c, fromId, body) == None <==>
            forall plain :: !OpensWithPeer(cipher, c, fromId, body, plain) && !OpensWithRoom(cipher, c, body, plain)
  {
    hide Decrypted, OpensWithPeer, OpensWithRoom;
    var d := Decrypted(cipher, c, fromId, body);
    if d.Some? {
      DecryptedIff(cipher, c, fromId, body, d.value);
    } else {
      forall plain
        ensures !OpensWithPeer(cipher, c, fromId, body, plain) && !OpensWithRoom(cipher, c, body, plain)
      {
        DecryptedIff(cipher, c, fromId, body, plain);
        if OpensWithRoom(cipher, c, body, plain) {
          var other :| OpensWithPeer(cipher, c, fromId, body, other);
          DecryptedIff(cipher, c, fromId, body, other);
        }
      }
    }
  }

  /**
   * A room key is taken if and only if it opens with the key shared with its sender and has 32 bytes; then
   * it replaces the one the client had, and otherwise nothing changes.
   */
  lemma RoomKeyOpenedIff(cipher: Cipher, c: Client, fromId: nat, sealed: seq<Byte>)
    ensures var c' := RoomKeyOpened(cipher, c, fromId, sealed);
            && c' == c.(store := c.store.(room := c'.store.room))
            && (forall room :: |room| == 32 && OpensWithPeer(cipher, c, fromId, sealed, room) ==> c'.store.room == Some(room))
            && ((forall room :: |room| == 32 ==> !OpensWithPeer(cipher, c, fromId, sealed, room)) ==> c'.store.room == c.store.room)
  {
    if fromId in c.store.peers && Open(cipher, c.store.secret, c.store.peers[fromId], sealed).Some? {
      var room := Open(cipher, c.store.secret, c.store.peers[fromId], sealed).value;
      assert OpensWithPeer(cipher, c, fromId, sealed, room) <==> |c.store.peers[fromId]| == 32 && |c.store.secret| == 32;
    }
  }

  /**
   * The last word on the key of x: after any messages a client holds the key of the last PeerKey of 32
   * bytes from x, if no ban of x came after it, whatever it held before; none, if a ban of x came after;
   * and what it had saved, if there was neither.
   */
  lemma {:induction false} LastWordOnKey(saved: map<nat, seq<Byte>>, ms: seq<AppMessage>, i: nat, x: nat)
    requires i <= |ms| && forall k :: i <= k < |ms| ==> !ChangesKey(ms[k], x)
    ensures var peers := PeersAfter(saved, ms);
            if i == 0 then (x in peers <==> x in saved) && (x in saved ==> peers[x] == saved[x])
            else
              && (ms[i - 1].PeerKey? && ChangesKey(ms[i - 1], x) ==> x in peers && peers[x] == ms[i - 1].text)
              && (ms[i - 1].BannedIds? && ChangesKey(ms[i - 1], x) ==> x !in peers)
    decreases |ms|
  {
    if i < |ms| {
      var front := ms[..|ms| - 1];
      assert forall k :: 0 <= k < |front| ==> front[k] == ms[k];
      LastWordOnKey(saved, front, i, x);
      assert !ChangesKey(ms[|ms| - 1], x);
    }
  }

  /** The message gives the client a key of x, or takes it away. */
  predicate ChangesKey(m: AppMessage, x: nat) {
    (m.PeerKey? && m.fromId == x && |m.text| == 32) || (m.BannedIds? && x in m.ids)
  }

  /** receive_assigned_id: the id is the assigned one, and a room key is made exactly if told to and there is none. */
  lemma AssignedIs(c: Client, m: AppMessage, random: seq<Byte>)
    requires m.AssignId?
    ensures var c' := Assigned(c, m, random);
            && c'.id == m.id && c'.offered == c.offered && c'.view == c.view && c'.store == c.store.(room := c'.store.room)
            && (c.store.room.Some? || !m.createRoom ==> c'.store.room == c.store.room)
            && (c.store.room.None? && m.createRoom ==> c'.store.room == Some(random))
  {
  }
}
