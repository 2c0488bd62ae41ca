/** The cipher the clients use, by the laws its callers rely on. */
module Cipher {
  import opened Bytes

  const KEY_SIZE: nat := 32
  const SEAL_OVERHEAD: nat := 40  // kNonceSize + kMacSize

  /** X25519 and the authenticated cipher, as functions of keys, nonce and text. */
  datatype Cipher = Cipher(publicOf: seq<Byte> -> seq<Byte>,
                           shared: (seq<Byte>, seq<Byte>) -> seq<Byte>,
                           lock: (seq<Byte>, seq<Byte>, seq<Byte>) -> seq<Byte>,
                           unlock: (seq<Byte>, seq<Byte>) -> Option<seq<Byte>>)

  /** Both ends compute the same shared key, and opening with the sealing key gives the text back. */
  ghost predicate Lawful(c: Cipher) {
    && (forall sk :: |c.publicOf(sk)| == KEY_SIZE)
    && (forall a, p :: |c.shared(a, p)| == KEY_SIZE)
    && (forall a, b :: c.shared(a, c.publicOf(b)) == c.shared(b, c.publicOf(a)))
    && (forall key, nonce, plain :: c.unlock(key, c.lock(key, nonce, plain)) == Some(plain))
    && (forall key, nonce, plain :: |c.lock(key, nonce, plain)| == |plain| + SEAL_OVERHEAD)
  }

  /** Nothing opens under a key of the right size other than the one it was sealed with. */
  ghost predicate Authentic(c: Cipher) {
    forall key, key', nonce, plain ::
      |key| == |key'| == KEY_SIZE && c.unlock(key', c.lock(key, nonce, plain)).Some? ==> key' == key
  }

  function Zeros(n: nat): (r: seq<Byte>)
    ensures |r| == n
  {
    seq(n, i => 0)
  }

  /** A cipher that hides nothing but obeys the laws: it appends the key, or zeros, as its seal. */
  function PlainLock(key: seq<Byte>, nonce: seq<Byte>, plain: seq<Byte>): seq<Byte> {
    plain + (if |key| == KEY_SIZE then key else Zeros(KEY_SIZE)) + Zeros(8)
  }

  function PlainUnlock(key: seq<Byte>, sealed: seq<Byte>): Option<seq<Byte>> {
    if |sealed| < SEAL_OVERHEAD then None
    else
      var end := |sealed| - SEAL_OVERHEAD;
      if |key| == KEY_SIZE && sealed[end..end + KEY_SIZE] != key then None else Some(sealed[..end])
  }

  /** The laws can be met, so what is proved from them is not empty. */
  lemma LawsAreConsistent()
    ensures exists c :: Lawful(c) && Authentic(c)
  {
    var c := Cipher(sk => Zeros(KEY_SIZE), (a, p) => Zeros(KEY_SIZE), PlainLock, PlainUnlock);
    forall key, nonce, plain
      ensures |c.lock(key, nonce, plain)| == |plain| + SEAL_OVERHEAD
      ensures c.unlock(key, c.lock(key, nonce, plain)) == Some(plain)
    {
      PlainOpens(key, nonce, plain);
    }
    forall key, key', nonce, plain | |key| == |key'| == KEY_SIZE && c.unlock(key', c.lock(key, nonce, plain)).Some?
      ensures key' == key
    {
      PlainOpens(key, nonce, plain);
    }
    assert Lawful(c) && Authentic(c);
  }

  lemma PlainOpens(key: seq<Byte>, nonce: seq<Byte>, plain: seq<Byte>)
    ensures |PlainLock(key, nonce, plain)| == |plain| + SEAL_OVERHEAD
    ensures PlainLock(key, nonce, plain)[..|plain|] == plain
    ensures |key| == KEY_SIZE ==> PlainLock(key, nonce, plain)[|plain|..|plain| + KEY_SIZE] == key
  {
  }

  /** seal_room_key and encrypt_for_peer. */
  function Seal(c: Cipher, secret: seq<Byte>, peerPublic: seq<Byte>, nonce: seq<Byte>, text: seq<Byte>): seq<Byte> {
    c.lock(c.shared(secret, peerPublic), nonce, text)
  }

  /** open_room_key and decrypt_from_peer, before any check of what was inside. */
  function Open(c: Cipher, secret: seq<Byte>, peerPublic: seq<Byte>, sealed: seq<Byte>): Option<seq<Byte>> {
    c.unlock(c.shared(secret, peerPublic), sealed)
  }

  /** What a seals for b, b opens. */
  lemma OpensSealed(c: Cipher, a: seq<Byte>, b: seq<Byte>, nonce: seq<Byte>, text: seq<Byte>)
    requires Lawful(c)
    ensures Open(c, b, c.publicOf(a), Seal(c, a, c.publicOf(b), nonce, text)) == Some(text)
  {
    assert c.shared(b, c.publicOf(a)) == c.shared(a, c.publicOf(b));
  }
}
