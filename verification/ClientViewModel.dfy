/**
 * client/viewmodel/ClientViewModel.cpp as an object. Each method is run here without interruption; run
 * that way, whichever sends fail, handle_incoming is exactly the chain of steps module Gossip lets the
 * other thread and the server interleave with.
 */
module ClientViewModel {
  import opened Bytes
  import opened Messages
  import opened Cipher
  import opened Client
  import opened Gossip
  import opened Codec
  import KS = PeerKeyStore

  /** A connection's sending side: what has been sent, and whether each coming send will succeed. */
  datatype Wire = Wire(sent: seq<AppMessage>, outcomes: seq<bool>)

  predicate Works(w: Wire) {
    w.outcomes != [] && w.outcomes[0]
  }

  /** The connection after an attempt to send m. */
  function After(w: Wire, m: AppMessage): Wire {
    Wire(if Works(w) then w.sent + [m] else w.sent, if w.outcomes == [] then [] else w.outcomes[1..])
  }

  class Link {
    var sent: seq<AppMessage>
    var outcomes: seq<bool>

    ghost function View(): Wire
      reads this
    {
      Wire(sent, outcomes)
    }

    constructor (outcomes: seq<bool>)
      ensures View() == Wire([], outcomes)
    {
      sent, this.outcomes := [], outcomes;
    }

    method Send(m: AppMessage) returns (ok: bool)
      modifies this
      ensures View() == After(old(View()), m) && ok == Works(old(View()))
    {
      ok := outcomes != [] && outcomes[0];
      if ok {
        sent := sent + [m];
      }
      if outcomes != [] {
        outcomes := outcomes[1..];
      }
    }
  }

  // ----- what the client's calls do, as functions of client and connection -----

  /** send_key_offer: the mark stays exactly if the offer was sent. */
  function KeyOfferSent(c: Client, w: Wire, peer: nat): (Client, Wire) {
    if !WantsOffer(c, peer) then (c, w)
    else (if Works(w) then OfferMarked(c, peer) else c, After(w, KeyOffer(ById(c.id, peer, c.store.public))))
  }

  /** maybe_send_room_key. */
  function RoomKeySent(cipher: Cipher, c: Client, w: Wire, peer: nat, nonce: seq<Byte>): Wire {
    match RoomKeyFor(cipher, c, peer, nonce)
    case None => w
    case Some(sealed) => After(w, RoomKeyOffer(ById(c.id, peer, sealed)))
  }

  /** handle_incoming. */
  function Processed(cipher: Cipher, c: Client, w: Wire, m: AppMessage, nonce: seq<Byte>): (Client, Wire) {
    var c' := Absorbed(cipher, c, m);
    match m
    case PeerKey(fromId, text) =>
      if |text| != KEY_SIZE then (c', w)
      else
        var (offering, w') := KeyOfferSent(c', w, fromId);
        (offering, RoomKeySent(cipher, offering, w', fromId, nonce))
    case UserJoined(id, _) => if id != c'.id then KeyOfferSent(c', w, id) else (c', w)
    case _ => (c', w)
  }

  /** A message to one peer, sealed for it. */
  function SealedChat(cipher: Cipher, c: Client, recipient: nat, plaintext: seq<Byte>, nonce: seq<Byte>): Option<AppMessage> {
    if recipient in c.store.peers && |c.store.secret| == KEY_SIZE then
      Some(Chat(ById(c.id, recipient, Seal(cipher, c.store.secret, c.store.peers[recipient], nonce, plaintext))))
    else None
  }

  /** A message to everyone, sealed with the room key. */
  function SealedBroadcast(cipher: Cipher, c: Client, plaintext: seq<Byte>, nonce: seq<Byte>): Option<AppMessage> {
    if c.store.room.Some? then
      Some(Chat(ChatPayload(c.id, RECIPIENT_BROADCAST, [], cipher.lock(c.store.room.value, nonce, plaintext))))
    else None
  }

  /** Sending a message that may be missing or too long to encode: false stands for an error shown or thrown. */
  function Tried(w: Wire, m: Option<AppMessage>): (Wire, bool) {
    if m.None? || Encode(m.value).Thrown? then (w, false) else (After(w, m.value), Works(w))
  }

  // ----- what goes out -----

  /** One send was attempted: it took one outcome, and what has been sent grew by one message if that was good. */
  predicate Attempted(w: Wire, w': Wire, ok: bool) {
    && ok == (w.outcomes != [] && w.outcomes[0])
    && w'.outcomes == (if w.outcomes == [] then [] else w.outcomes[1..])
    && |w'.sent| == |w.sent| + (if ok then 1 else 0) && w.sent <= w'.sent
  }

  /** The payload is from client c to one client by id, or to all. */
  predicate IsFor(chat: ChatPayload, c: Client, recipient: Option<nat>) {
    && chat.fromId == c.id
    && if recipient.None? then chat.recipientTag == 3 && chat.recipientData == []
       else
         && chat.recipientTag == 1 && |chat.recipientData| == 4
         && var data := chat.recipientData;
            data[0] as int * 16777216 + data[1] as int * 65536 + data[2] as int * 256 + data[3] as int == recipient.value
  }

  /** Whoever has the secret to the public key that c holds of the recipient opens the text to plaintext. */
  ghost predicate OpensFor(cipher: Cipher, c: Client, recipient: nat, plaintext: seq<Byte>, text: seq<Byte>)
    requires recipient in c.store.peers
  {
    forall secret: seq<Byte> :: cipher.publicOf(secret) == c.store.peers[recipient] ==>
      cipher.unlock(cipher.shared(secret, cipher.publicOf(c.store.secret)), text) == Some(plaintext)
  }

  /**
   * A text for one client: without that client's key, or an identity of one's own, nothing is sent and
   * the call fails. With them, a text of more than 65495 bytes is not sent either; and a shorter one is
   * sent once, sealed for the recipient.
   */
  ghost predicate GoesToOne(cipher: Cipher, c: Client, w: Wire, recipient: nat, plaintext: seq<Byte>, w': Wire, ok: bool) {
    if recipient !in c.store.peers || |c.store.secret| != 32 then w' == w && !ok
    else if |plaintext| > 65495 then w' == w && !ok
    else
      && Attempted(w, w', ok)
      && (ok ==> var m := w'.sent[|w.sent|];
                 m.Chat? && IsFor(m.chat, c, Some(recipient)) && OpensFor(cipher, c, recipient, plaintext, m.chat.text))
  }

  /** A text for all: the same with the room key. */
  ghost predicate GoesToAll(cipher: Cipher, c: Client, w: Wire, plaintext: seq<Byte>, w': Wire, ok: bool) {
    if c.store.room.None? then w' == w && !ok
    else if |plaintext| > 65495 then w' == w && !ok
    else
      && Attempted(w, w', ok)
      && (ok ==> var m := w'.sent[|w.sent|];
                 m.Chat? && IsFor(m.chat, c, None) && cipher.unlock(c.store.room.value, m.chat.text) == Some(plaintext))
  }

  /** The room key for a peer: nothing without a room key, that peer's key or an identity; else sent once, sealed for it. */
  ghost predicate RoomKeyGoes(cipher: Cipher, c: Client, w: Wire, peer: nat, w': Wire) {
    if c.store.room.None? || peer !in c.store.peers || |c.store.secret| != 32 then w' == w
    else
      exists ok ::
        && Attempted(w, w', ok)
        && (ok ==> var m := w'.sent[|w.sent|];
                   && m.RoomKeyOffer? && IsFor(m.chat, c, Some(peer))
                   && OpensFor(cipher, c, peer, c.store.room.value, m.chat.text))
  }

  /**
   * A key offer: nothing for oneself, for id 0 and for a peer that has been offered the key; else one send
   * of the client's public key to that peer, which is marked exactly if the send succeeds.
   */
  ghost predicate KeyGoes(c: Client, w: Wire, peer: nat, c': Client, w': Wire) {
    if peer == 0 || peer == c.id || peer in c.offered then c' == c && w' == w
    else
      exists ok ::
        && Attempted(w, w', ok) && c' == c.(offered := if ok then c.offered + {peer} else c.offered)
        && (ok ==> var m := w'.sent[|w.sent|];
                   m.KeyOffer? && IsFor(m.chat, c, Some(peer)) && m.chat.text == c.store.public)
  }

  lemma KeyIsOffered(c: Client, w: Wire, peer: nat)
    requires peer < U32_LIMIT
    ensures var (c', w') := KeyOfferSent(c, w, peer); KeyGoes(c, w, peer, c', w')
  {
    var (c', w') := KeyOfferSent(c, w, peer);
    RecipientSpelled(peer);
    if WantsOffer(c, peer) {
      assert Attempted(w, w', Works(w));
    }
  }

  lemma RoomKeyIsSealed(cipher: Cipher, c: Client, w: Wire, peer: nat, nonce: seq<Byte>)
    requires Lawful(cipher) && KS.Sized(c.store)
    ensures RoomKeyGoes(cipher, c, w, peer, RoomKeySent(cipher, c, w, peer, nonce))
  {
    if c.store.room.Some? && peer in c.store.peers && |c.store.secret| == 32 {
      RecipientSpelled(peer);
      forall secret: seq<Byte> | cipher.publicOf(secret) == c.store.peers[peer]
        ensures Open(cipher, secret, cipher.publicOf(c.store.secret), RoomKeyFor(cipher, c, peer, nonce).value) == Some(c.store.room.value)
      {
        OpensSealed(cipher, c.store.secret, secret, nonce, c.store.room.value);
      }
      assert Attempted(w, RoomKeySent(cipher, c, w, peer, nonce), Works(w));
    }
  }

  /** Without the key nothing goes out, whatever the cipher does. */
  lemma NoKeyNothingSent(cipher: Cipher, c: Client, w: Wire, recipient: nat, plaintext: seq<Byte>, nonce: seq<Byte>)
    ensures recipient !in c.store.peers || |c.store.secret| != 32 ==>
              Tried(w, SealedChat(cipher, c, recipient, plaintext, nonce)) == (w, false)
    ensures c.store.room.None? ==> Tried(w, SealedBroadcast(cipher, c, plaintext, nonce)) == (w, false)
  {
  }

  lemma SealedForOne(cipher: Cipher, c: Client, w: Wire, recipient: nat, plaintext: seq<Byte>, nonce: seq<Byte>)
    requires Lawful(cipher) && KS.Sized(c.store)
    ensures var (w', ok) := Tried(w, SealedChat(cipher, c, recipient, plaintext, nonce));
            GoesToOne(cipher, c, w, recipient, plaintext, w', ok)
  {
    if recipient in c.store.peers && |c.store.secret| == 32 {
      var body := Seal(cipher, c.store.secret, c.store.peers[recipient], nonce, plaintext);
      var m := Chat(ById(c.id, recipient, body));
      RecipientSpelled(recipient);
      assert Encode(m).Ok? <==> |plaintext| <= 65495;
      forall secret: seq<Byte> | cipher.publicOf(secret) == c.store.peers[recipient]
        ensures cipher.unlock(cipher.shared(secret, cipher.publicOf(c.store.secret)), body) == Some(plaintext)
      {
        OpensSealed(cipher, c.store.secret, secret, nonce, plaintext);
      }
    }
  }

  lemma RecipientSpelled(recipient: nat)
    requires recipient < U32_LIMIT
    ensures var data := WriteU32(recipient);
            data[0] as int * 16777216 + data[1] as int * 65536 + data[2] as int * 256 + data[3] as int == recipient
  {
    assert WriteU32(recipient) == WriteU16(recipient / 65536) + WriteU16(recipient % 65536);
  }

  lemma SealedForAll(cipher: Cipher, c: Client, w: Wire, plaintext: seq<Byte>, nonce: seq<Byte>)
    requires Lawful(cipher)
    ensures var (w', ok) := Tried(w, SealedBroadcast(cipher, c, plaintext, nonce)); GoesToAll(cipher, c, w, plaintext, w', ok)
  {
    if c.store.room.Some? {
      var body := cipher.lock(c.store.room.value, nonce, plaintext);
      assert Encode(Chat(ChatPayload(c.id, RECIPIENT_BROADCAST, [], body))).Ok? <==> |plaintext| <= 65495;
    }
  }

  // ----- the marks and what was sent -----

  predicate OffersTo(m: AppMessage, peer: nat) {
    m.KeyOffer? && Target(m) == peer
  }

  lemma IsAnOffer(from: nat, peer: nat, key: seq<Byte>)
    requires peer < U32_LIMIT
    ensures OffersTo(KeyOffer(ById(from, peer, key)), peer)
  {
  }

  /** The marked peers are exactly those a KeyOffer has been sent to, and each was sent one. */
  ghost predicate MarksMatch(sent: seq<AppMessage>, offered: set<nat>) {
    && (forall p: nat :: p in offered <==> exists i :: 0 <= i < |sent| && OffersTo(sent[i], p))
    && (forall i, j :: 0 <= i < j < |sent| && sent[i].KeyOffer? && sent[j].KeyOffer? ==> Target(sent[i]) != Target(sent[j]))
  }

  lemma OneMoreOffer(sent: seq<AppMessage>, offered: set<nat>, m: AppMessage, peer: nat)
    requires MarksMatch(sent, offered) && OffersTo(m, peer) && peer !in offered
    ensures MarksMatch(sent + [m], offered + {peer})
  {
    var sent' := sent + [m];
    assert sent'[|sent|] == m;
    forall p: nat | p in offered
      ensures exists i :: 0 <= i < |sent'| && OffersTo(sent'[i], p)
    {
      var i :| 0 <= i < |sent| && OffersTo(sent[i], p);
      assert OffersTo(sent'[i], p);
    }
    forall i | 0 <= i < |sent| && sent[i].KeyOffer?
      ensures Target(sent[i]) != peer
    {
      assert OffersTo(sent[i], Target(sent[i]));
    }
    forall i, j | 0 <= i < j < |sent'| && sent'[i].KeyOffer? && sent'[j].KeyOffer?
      ensures Target(sent'[i]) != Target(sent'[j])
    {
      assert sent'[i] == sent[i];
    }
  }

  lemma OtherMessage(sent: seq<AppMessage>, offered: set<nat>, m: AppMessage)
    requires MarksMatch(sent, offered) && !m.KeyOffer?
    ensures MarksMatch(sent + [m], offered)
  {
    var sent' := sent + [m];
    forall p: nat | p in offered
      ensures exists i :: 0 <= i < |sent'| && OffersTo(sent'[i], p)
    {
      var i :| 0 <= i < |sent| && OffersTo(sent[i], p);
      assert OffersTo(sent'[i], p);
    }
    forall p: nat, i | 0 <= i < |sent'| && OffersTo(sent'[i], p)
      ensures p in offered
    {
      assert OffersTo(sent[i], p);
    }
  }

  // ----- the receive thread left alone -----

  /** How many pieces of its message the receive thread still has to do. */
  function Left(rx: Rx): nat {
    match rx
    case Idle => 0
    case Offering(_, _) => 4
    case Posting(_, _) => 3
    case Sealing(_) => 2
    case PostingRoom(_, _) => 1
  }

  /** The receive thread's next step: a send succeeds or fails as the connection says. */
  function NextPiece(cipher: Cipher, n: Node, w: Wire, nonce: seq<Byte>): Node {
    if (n.rx.Posting? || n.rx.PostingRoom?) && !Works(w) then ContinueFailed(n) else Continued(cipher, n, nonce)
  }

  function OutcomesLeft(n: Node, w: Wire): Wire {
    if (n.rx.Posting? || n.rx.PostingRoom?) && w.outcomes != [] then w.(outcomes := w.outcomes[1..]) else w
  }

  /** The client when its receive thread has finished its message. */
  function Settled(cipher: Cipher, n: Node, w: Wire, nonce: seq<Byte>): Node
    decreases Left(n.rx)
  {
    if n.rx == Idle then n else Settled(cipher, NextPiece(cipher, n, w, nonce), OutcomesLeft(n, w), nonce)
  }

  /** A client with nothing under way that has sent `sent`. */
  function Resting(c: Client, sent: seq<AppMessage>): Node {
    Node(c, Idle, Ready, [], None, sent, [], 0)
  }

  /** Sending the offer and going on: the client and the connection are as send_key_offer leaves them. */
  lemma SettlesOffer(cipher: Cipher, n: Node, w: Wire, peer: nat, room: bool, nonce: seq<Byte>)
    requires n.rx == Offering(peer, room) && n.up == w.sent
    ensures var (c, w') := KeyOfferSent(n.c, w, peer);
            Settled(cipher, n, w, nonce) == Settled(cipher, n.(c := c, up := w'.sent, rx := AfterOffer(peer, room)), w', nonce)
  {
    var n1 := Continued(cipher, n, nonce);
    assert Settled(cipher, n, w, nonce) == Settled(cipher, n1, w, nonce);
    if WantsOffer(n.c, peer) {
      var w1 := OutcomesLeft(n1, w);
      assert Settled(cipher, n1, w, nonce) == Settled(cipher, NextPiece(cipher, n1, w, nonce), w1, nonce);
      assert OfferUnmarked(OfferMarked(n.c, peer), peer) == n.c;
      var (c, w') := KeyOfferSent(n.c, w, peer);
      SentIsNotLookedAt(cipher, NextPiece(cipher, n1, w, nonce), w1, w', nonce);
    }
  }

  /** Only the coming outcomes of a connection matter to what the receive thread does. */
  lemma {:induction false} SentIsNotLookedAt(cipher: Cipher, n: Node, w: Wire, w': Wire, nonce: seq<Byte>)
    requires w'.outcomes == w.outcomes
    ensures Settled(cipher, n, w', nonce) == Settled(cipher, n, w, nonce)
    decreases Left(n.rx)
  {
    hide Continued, ContinueFailed, Left;
    if n.rx != Idle {
      PiecesGetFewer(cipher, n, w, nonce);
      SentIsNotLookedAt(cipher, NextPiece(cipher, n, w, nonce), OutcomesLeft(n, w), OutcomesLeft(n, w'), nonce);
    }
  }

  lemma PiecesGetFewer(cipher: Cipher, n: Node, w: Wire, nonce: seq<Byte>)
    requires n.rx != Idle
    ensures Left(NextPiece(cipher, n, w, nonce).rx) < Left(n.rx)
  {
  }

  lemma SettlesRoom(cipher: Cipher, n: Node, w: Wire, peer: nat, nonce: seq<Byte>)
    requires n.rx == Sealing(peer) && n.up == w.sent
    ensures Settled(cipher, n, w, nonce) == n.(rx := Idle, up := RoomKeySent(cipher, n.c, w, peer, nonce).sent)
  {
    hide RoomKeyFor;
    var n1 := Continued(cipher, n, nonce);
    assert Settled(cipher, n, w, nonce) == Settled(cipher, n1, w, nonce);
    if n1.rx != Idle {
      var n2 := NextPiece(cipher, n1, w, nonce);
      assert Settled(cipher, n1, w, nonce) == Settled(cipher, n2, OutcomesLeft(n1, w), nonce) == n2;
    }
  }

  /**
   * handle_incoming without interruption is a chain of the steps module Gossip takes one at a time,
   * whatever sends fail: take the message, then continue until the receive thread is idle again.
   */
  lemma ProcessedIsGossip(cipher: Cipher, c: Client, w: Wire, m: AppMessage, nonce: seq<Byte>)
    ensures var n := Settled(cipher, Took(cipher, Resting(c, w.sent), m), w, nonce);
            var (c', w') := Processed(cipher, c, w, m, nonce);
            n.rx == Idle && n.c == c' && n.up == w'.sent
  {
    assert Absorbed(cipher, c, m).id == c.id;
    hide Absorbed, RoomKeyFor, Continued;
    var n := Took(cipher, Resting(c, w.sent), m);
    if n.rx != Idle {
      var peer, room := n.rx.peer, n.rx.room;
      SettlesOffer(cipher, n, w, peer, room, nonce);
      if room {
        var (c', w') := KeyOfferSent(n.c, w, peer);
        SettlesRoom(cipher, n.(c := c', up := w'.sent, rx := Sealing(peer)), w', peer, nonce);
      }
    }
  }

  /**
   * Only a key and an announcement make the client send anything, and only for another client; and a key
   * of the wrong size changes nothing at all.
   */
  lemma QuietMessages(cipher: Cipher, c: Client, w: Wire, m: AppMessage, nonce: seq<Byte>)
    ensures var (c', w') := Processed(cipher, c, w, m, nonce);
            && (!m.PeerKey? && !m.UserJoined? ==> w' == w && c'.offered == c.offered)
            && (m.UserJoined? && m.id == c.id ==> w' == w && c'.offered == c.offered)
            && (m.PeerKey? && |m.text| != 32 ==> c' == c && w' == w)
            && (m.AssignId? || m.Deliver? || m.Error? || m.ListUsers? ==> c' == c)
  {
  }

  /** Whatever has been sent stays sent, and what handling messages adds is keys and room keys only. */
  ghost predicate AddsKeysOnly(sent: seq<AppMessage>, sent': seq<AppMessage>) {
    sent <= sent' && forall i :: |sent| <= i < |sent'| ==> sent'[i].KeyOffer? || sent'[i].RoomKeyOffer?
  }

  lemma ProcessedAddsKeys(cipher: Cipher, c: Client, w: Wire, m: AppMessage, nonce: seq<Byte>)
    ensures AddsKeysOnly(w.sent, Processed(cipher, c, w, m, nonce).1.sent)
  {
    hide Absorbed, RoomKeyFor;
  }

  lemma {:induction false} ProcessedAllAddsKeys(cipher: Cipher, c: Client, w: Wire, ms: seq<AppMessage>, nonce: nat -> seq<Byte>)
    ensures AddsKeysOnly(w.sent, ProcessedAll(cipher, c, w, ms, nonce).1.sent)
    decreases |ms|
  {
    hide Processed;
    if ms != [] {
      ProcessedAllAddsKeys(cipher, c, w, ms[..|ms| - 1], nonce);
      var (c', w') := ProcessedAll(cipher, c, w, ms[..|ms| - 1], nonce);
      ProcessedAddsKeys(cipher, c', w', ms[|ms| - 1], nonce(|ms| - 1));
    }
  }

  // ----- many messages -----

  /** handle_incoming on one message after the other, with the nonces the cipher draws. */
  function ProcessedAll(cipher: Cipher, c: Client, w: Wire, ms: seq<AppMessage>, nonce: nat -> seq<Byte>): (Client, Wire)
    decreases |ms|
  {
    if ms == [] then (c, w)
    else
      var (c', w') := ProcessedAll(cipher, c, w, ms[..|ms| - 1], nonce);
      Processed(cipher, c', w', ms[|ms| - 1], nonce(|ms| - 1))
  }

  /** Sending changes none of the client's copies. */
  lemma ProcessedCopies(cipher: Cipher, c: Client, w: Wire, m: AppMessage, nonce: seq<Byte>)
    ensures var c' := Processed(cipher, c, w, m, nonce).0;
            c'.id == c.id && c'.view == Observed(c.view, m) && c'.store.peers == PeersAfterOne(c.store.peers, m)
  {
  }

  lemma NoneProcessed(cipher: Cipher, c: Client, w: Wire, nonce: nat -> seq<Byte>)
    ensures ProcessedAll(cipher, c, w, [], nonce) == (c, w)
  {
  }

  lemma OneMoreProcessed(cipher: Cipher, c: Client, w: Wire, ms: seq<AppMessage>, m: AppMessage, nonce: nat -> seq<Byte>)
    ensures var (c', w') := ProcessedAll(cipher, c, w, ms, nonce);
            ProcessedAll(cipher, c, w, ms + [m], nonce) == Processed(cipher, c', w', m, nonce(|ms|))
  {
    assert (ms + [m])[..|ms|] == ms;
  }

  /**
   * Whatever sends fail meanwhile, a client that goes on from the messages `before` with the messages ms
   * has the membership copy and the peer keys of both together.
   */
  lemma {:induction false} ProcessedAllCopies(cipher: Cipher, c: Client, w: Wire, saved: map<nat, seq<Byte>>,
                                              before: seq<AppMessage>, ms: seq<AppMessage>, nonce: nat -> seq<Byte>)
    requires c.view == ViewAfter(before) && c.store.peers == PeersAfter(saved, before)
    ensures var c' := ProcessedAll(cipher, c, w, ms, nonce).0;
            c'.id == c.id && c'.view == ViewAfter(before + ms) && c'.store.peers == PeersAfter(saved, before + ms)
    decreases |ms|
  {
    hide Processed, Observed, PeersAfterOne;
    if ms == [] {
      assert before + ms == before;
    } else {
      var front, last, all := ms[..|ms| - 1], ms[|ms| - 1], before + ms;
      assert all[..|all| - 1] == before + front && all[|all| - 1] == last;
      ProcessedAllCopies(cipher, c, w, saved, before, front, nonce);
      var (c', w') := ProcessedAll(cipher, c, w, front, nonce);
      ProcessedCopies(cipher, c', w', last, nonce(|ms| - 1));
    }
  }

  /** The client's copy of the membership, from its two fields. */
  function Copy(nicknameById: map<nat, seq<Byte>>, idByNickname: map<seq<Byte>, nat>): View {
    View(nicknameById, idByNickname)
  }

  class ClientViewModel {
    const cipher: Cipher
    const keyStore: KS.PeerKeyStore
    const link: Link
    var myId: nat
    var keyOfferedTo: set<nat>
    var nicknameById: map<nat, seq<Byte>>
    var idByNickname: map<seq<Byte>, nat>

    ghost function View(): Client
      reads this, keyStore
    {
      Client(myId, keyStore.View(), keyOfferedTo, Copy(nicknameById, idByNickname))
    }

    ghost predicate Consistent()
      reads this, keyStore, link
    {
      KS.Sized(keyStore.View()) && MarksMatch(link.sent, keyOfferedTo)
    }

    constructor (cipher: Cipher, outcomes: seq<bool>)
      ensures Consistent() && View() == Client(0, KeyStore([], [], None, map[]), {}, EmptyView())
      ensures this.cipher == cipher && fresh(keyStore) && fresh(link) && link.View() == Wire([], outcomes)
    {
      this.cipher := cipher;
      keyStore := new KS.PeerKeyStore();
      link := new Link(outcomes);
      myId, keyOfferedTo, nicknameById, idByNickname := 0, {}, map[], map[];
    }

    // ----- sending -----

    /** send_key_offer: mark, send, and take the mark back if the send fails. */
    method SendKeyOffer(peer: nat)
      requires Consistent() && peer < U32_LIMIT
      modifies this`keyOfferedTo, link
      ensures Consistent() && (View(), link.View()) == KeyOfferSent(old(View()), old(link.View()), peer)
      ensures KeyGoes(old(View()), old(link.View()), peer, View(), link.View())
    {
      hide KeyGoes, Works, MarksMatch, Target;
      KeyIsOffered(View(), link.View(), peer);
      if peer == 0 || peer == myId || peer in keyOfferedTo {
        return;
      }
      ghost var offered := keyOfferedTo;
      keyOfferedTo := keyOfferedTo + {peer};
      var m := KeyOffer(ById(myId, peer, keyStore.identityPublic));
      IsAnOffer(myId, peer, keyStore.identityPublic);
      OneMoreOffer(link.sent, offered, m, peer);
      var ok := link.Send(m);
      if !ok {
        keyOfferedTo := keyOfferedTo - {peer};
        assert keyOfferedTo == offered;
      }
    }

    /** maybe_send_room_key. */
    method MaybeSendRoomKey(peer: nat, nonce: seq<Byte>)
      requires Consistent()
      modifies link
      ensures Consistent() && link.View() == RoomKeySent(cipher, View(), old(link.View()), peer, nonce)
      ensures keyStore.roomKey.None? || peer !in keyStore.peers ==> link.View() == old(link.View())
      ensures Lawful(cipher) ==> RoomKeyGoes(cipher, View(), old(link.View()), peer, link.View())
    {
      if Lawful(cipher) {
        RoomKeyIsSealed(cipher, View(), link.View(), peer, nonce);
      }
      if keyStore.roomKey.None? || peer !in keyStore.peers {
        return;
      }
      var key, room := keyStore.peers[peer], keyStore.roomKey.value;
      if |keyStore.identitySecret| != KEY_SIZE {
        return;  // the cipher throws; nothing is sent
      }
      var m := RoomKeyOffer(ById(myId, peer, Seal(cipher, keyStore.identitySecret, key, nonce, room)));
      OtherMessage(link.sent, keyOfferedTo, m);
      var ok := link.Send(m);
    }

    /** send_encrypted_chat_by_id: the text goes out sealed for the recipient, or not at all. */
    method SendEncryptedChatById(recipient: nat, plaintext: seq<Byte>, nonce: seq<Byte>) returns (ok: bool)
      requires Consistent()
      modifies link
      ensures Consistent()
      ensures (link.View(), ok) == Tried(old(link.View()), SealedChat(cipher, View(), recipient, plaintext, nonce))
      ensures recipient !in keyStore.peers || |keyStore.identitySecret| != 32 ==> !ok && link.View() == old(link.View())
      ensures Lawful(cipher) ==> GoesToOne(cipher, View(), old(link.View()), recipient, plaintext, link.View(), ok)
    {
      NoKeyNothingSent(cipher, View(), link.View(), recipient, plaintext, nonce);
      if Lawful(cipher) {
        SealedForOne(cipher, View(), link.View(), recipient, plaintext, nonce);
      }
      if recipient !in keyStore.peers || |keyStore.identitySecret| != KEY_SIZE {
        return false;
      }
      var m := Chat(ById(myId, recipient, Seal(cipher, keyStore.identitySecret, keyStore.peers[recipient], nonce, plaintext)));
      if Encode(m).Thrown? {
        return false;
      }
      OtherMessage(link.sent, keyOfferedTo, m);
      ok := link.Send(m);
    }

    /** send_encrypted_chat_by_nickname: the client resolves the nickname itself. */
    method SendEncryptedChatByNickname(nickname: seq<Byte>, plaintext: seq<Byte>, nonce: seq<Byte>) returns (ok: bool)
      requires Consistent()
      modifies link
      ensures Consistent()
      ensures (link.View(), ok) ==
              Tried(old(link.View()), if nickname in idByNickname
                                      then SealedChat(cipher, View(), idByNickname[nickname], plaintext, nonce) else None)
      ensures nickname !in idByNickname ==> !ok && link.View() == old(link.View())
      ensures Lawful(cipher) && nickname in idByNickname ==>
                GoesToOne(cipher, View(), old(link.View()), idByNickname[nickname], plaintext, link.View(), ok)
    {
      if nickname !in idByNickname {
        return false;
      }
      ok := SendEncryptedChatById(idByNickname[nickname], plaintext, nonce);
    }

    /** send_encrypted_broadcast: sealed with the room key. */
    method SendEncryptedBroadcast(plaintext: seq<Byte>, nonce: seq<Byte>) returns (ok: bool)
      requires Consistent()
      modifies link
      ensures Consistent()
      ensures (link.View(), ok) == Tried(old(link.View()), SealedBroadcast(cipher, View(), plaintext, nonce))
      ensures keyStore.roomKey.None? ==> !ok && link.View() == old(link.View())
      ensures Lawful(cipher) ==> GoesToAll(cipher, View(), old(link.View()), plaintext, link.View(), ok)
    {
      NoKeyNothingSent(cipher, View(), link.View(), 0, plaintext, nonce);
      if Lawful(cipher) {
        SealedForAll(cipher, View(), link.View(), plaintext, nonce);
      }
      if keyStore.roomKey.None? {
        return false;
      }
      var m := Chat(ChatPayload(myId, RECIPIENT_BROADCAST, [], cipher.lock(keyStore.roomKey.value, nonce, plaintext)));
      if Encode(m).Thrown? {
        return false;
      }
      OtherMessage(link.sent, keyOfferedTo, m);
      ok := link.Send(m);
    }

    // ----- receiving -----

    /** receive_assigned_id: false stands for the exception. */
    method ReceiveAssignedId(message: Option<AppMessage>, random: seq<Byte>) returns (ok: bool)
      requires Consistent() && |random| == KEY_SIZE
      modifies this`myId, keyStore
      ensures Consistent()
      ensures ok <==> message.Some? && message.value.AssignId?
      ensures View() == if ok then Assigned(old(View()), message.value, random) else old(View())
    {
      if message.None? || !message.value.AssignId? {
        return false;
      }
      myId := message.value.id;
      if message.value.createRoom && keyStore.roomKey.None? {
        var thrown := keyStore.SetRoomKey(random);
      }
      return true;
    }

    /** decrypt_deliver. */
    method DecryptDeliver(fromId: nat, body: seq<Byte>) returns (plain: Option<seq<Byte>>)
      requires Consistent()
      ensures plain == Decrypted(cipher, View(), fromId, body)
      ensures plain.Some? ==>
                || OpensWithPeer(cipher, View(), fromId, body, plain.value)
                || ((forall other :: !OpensWithPeer(cipher, View(), fromId, body, other)) && OpensWithRoom(cipher, View(), body, plain.value))
      ensures plain.None? <==> forall p :: !OpensWithPeer(cipher, View(), fromId, body, p) && !OpensWithRoom(cipher, View(), body, p)
    {
      NotDecryptedIff(cipher, View(), fromId, body);
      if Decrypted(cipher, View(), fromId, body).Some? {
        DecryptedIff(cipher, View(), fromId, body, Decrypted(cipher, View(), fromId, body).value);
      }
      if fromId in keyStore.peers && |keyStore.identitySecret| == KEY_SIZE {
        plain := Open(cipher, keyStore.identitySecret, keyStore.peers[fromId], body);
        if plain.Some? {
          return;
        }
      }
      if keyStore.roomKey.Some? {
        return cipher.unlock(keyStore.roomKey.value, body);
      }
      return None;
    }

    /** The UsersList loop of handle_incoming. */
    method NoteUsers(users: seq<UserInfo>)
      modifies this`nicknameById, this`idByNickname
      ensures Copy(nicknameById, idByNickname) == AllNamed(old(Copy(nicknameById, idByNickname)), users)
    {
      for i := 0 to |users|
        invariant Copy(nicknameById, idByNickname) == AllNamed(old(Copy(nicknameById, idByNickname)), users[..i])
      {
        assert users[..i + 1][..i] == users[..i];
        nicknameById := nicknameById[users[i].id := users[i].nickname];
        if users[i].nickname != [] {
          idByNickname := idByNickname[users[i].nickname := users[i].id];
        }
      }
      assert users[..|users|] == users;
    }

    /** The RoomKey case. */
    method TakeRoomKey(fromId: nat, sealed: seq<Byte>)
      requires Consistent()
      modifies keyStore
      ensures Consistent() && View() == RoomKeyOpened(cipher, old(View()), fromId, sealed)
    {
      if fromId !in keyStore.peers || |keyStore.identitySecret| != KEY_SIZE {
        return;
      }
      var room := Open(cipher, keyStore.identitySecret, keyStore.peers[fromId], sealed);
      if room.Some? {
        var thrown := keyStore.SetRoomKey(room.value);
      }
    }

    /** handle_incoming: what is shown of a delivered message, and everything the client does about the rest. */
    method HandleIncoming(m: AppMessage, nonce: seq<Byte>) returns (shown: Option<(nat, seq<Byte>)>)
      requires Consistent() && WellFormed(m)
      modifies this, keyStore, link
      ensures Consistent()
      ensures (View(), link.View()) == Processed(cipher, old(View()), old(link.View()), m, nonce)
      ensures shown == if m.Deliver? && Decrypted(cipher, old(View()), m.fromId, m.text).Some?
                       then Some((m.fromId, Decrypted(cipher, old(View()), m.fromId, m.text).value)) else None
      ensures shown.Some? ==>
                && m.Deliver? && shown.value.0 == m.fromId
                && (|| OpensWithPeer(cipher, old(View()), m.fromId, m.text, shown.value.1)
                    || OpensWithRoom(cipher, old(View()), m.text, shown.value.1))
      ensures m.Deliver? && shown.None? ==>
                forall p :: !OpensWithPeer(cipher, old(View()), m.fromId, m.text, p) && !OpensWithRoom(cipher, old(View()), m.text, p)
    {
      shown := None;
      match m
      case Deliver(fromId, text) =>
        var plain := DecryptDeliver(fromId, text);
        if plain.Some? {
          shown := Some((fromId, plain.value));
        }
      case PeerKey(fromId, text) =>
        var thrown := keyStore.SetPeerPublic(fromId, text);
        if thrown.None? {
          SendKeyOffer(fromId);
          MaybeSendRoomKey(fromId, nonce);
        }
      case RoomKey(fromId, text) =>
        TakeRoomKey(fromId, text);
      case BannedIds(ids) =>
        keyStore.ErasePeers(ids);
      case UserJoined(id, nickname) =>
        nicknameById := nicknameById[id := nickname];
        if nickname != [] {
          idByNickname := idByNickname[nickname := id];
        }
        if id != myId {
          SendKeyOffer(id);
        }
      case UserLeft(id, nickname) =>
        nicknameById := nicknameById - {id};
        if nickname != [] {
          idByNickname := idByNickname - {nickname};
        }
      case UsersList(users) =>
        NoteUsers(users);
      case _ =>
    }
  }
}
