/**
 * Password-based authenticated encryption of a message into a self-describing
 * blob (lib/encryption.js): `salt(16) ++ iv(12) ++ tag(16) ++ ciphertext`.
 *
 * The cryptographic primitives are not modelled: PBKDF2-HMAC-SHA256
 * (section 5.2 of RFC 8018) and AES-256-GCM sealing and opening (NIST
 * SP 800-38D, section 7) are function values supplied in `Primitives`, and
 * the properties the standards give them are stated as predicates that the
 * lemmas below assume. The random salt and IV are parameters. Messages and
 * passwords are byte strings (UTF-8 encoding is not modelled).
 */
module Encryption {
  import opened Wrappers

  newtype byte = b: int | 0 <= b < 0x100
  type Bytes = seq<byte>

  const SALT_LENGTH: nat := 16
  const IV_LENGTH: nat := 12
  const TAG_LENGTH: nat := 16
  /** Bytes in front of the ciphertext: salt, IV and tag. */
  const HEADER_LENGTH: nat := SALT_LENGTH + IV_LENGTH + TAG_LENGTH

  /** The fixed PBKDF2 parameters of deriveKey. */
  const PBKDF2_ITERATIONS: nat := 100000
  const KEY_LENGTH: nat := 32

  type Salt = s: Bytes | |s| == SALT_LENGTH witness seq(16, _ => 0)
  type Iv = s: Bytes | |s| == IV_LENGTH witness seq(12, _ => 0)
  /** A 128-bit GCM authentication tag (the default length of getAuthTag). */
  type Tag = s: Bytes | |s| == TAG_LENGTH witness seq(16, _ => 0)

  /** The hash function PBKDF2 is asked to use. */
  datatype Digest = Sha256

  /** What GCM sealing produces: the ciphertext and its tag. */
  datatype Sealed = Sealed(ciphertext: Bytes, tag: Tag)

  /** The foreign primitives:
      - `pbkdf2(password, salt, iterations, keyLength, digest)`;
      - `seal(key, iv, plaintext)`, GCM authenticated encryption;
      - `open(key, iv, tag, ciphertext)`, GCM authenticated decryption, `None`
        when the tag does not verify (the source's `final()` throwing). */
  datatype Primitives = Primitives(
    pbkdf2: (Bytes, Bytes, nat, nat, Digest) -> Bytes,
    seal: (Bytes, Bytes, Bytes) -> Sealed,
    open: (Bytes, Bytes, Tag, Bytes) -> Option<Bytes>)

  /** PBKDF2 returns as many bytes as asked for. */
  ghost predicate KdfHonoursLength(p: Primitives)
  {
    forall password, salt, iterations, len, digest ::
      |p.pbkdf2(password, salt, iterations, len, digest)| == len
  }

  /** GCM is a counter mode: the ciphertext is as long as the plaintext. */
  ghost predicate SealKeepsLength(p: Primitives)
  {
    forall key, iv, m :: |p.seal(key, iv, m).ciphertext| == |m|
  }

  /** Opening with the key and IV that sealed, and the tag and ciphertext
      sealing produced, gives back the plaintext. */
  ghost predicate OpenInvertsSeal(p: Primitives)
  {
    forall key, iv, m :: p.open(key, iv, p.seal(key, iv, m).tag, p.seal(key, iv, m).ciphertext) == Some(m)
  }

  /** Opening succeeds only on a tag and ciphertext that sealing the opened
      plaintext under the same key and IV produces (no forgeries). */
  ghost predicate OpenAuthenticates(p: Primitives)
  {
    forall key, iv, tag, c :: p.open(key, iv, tag, c).Some? ==>
      p.seal(key, iv, p.open(key, iv, tag, c).value) == Sealed(c, tag)
  }

  /* ---------------------------------------------------------------------- */
  /* Blob framing                                                           */
  /* ---------------------------------------------------------------------- */

  /** The four parts of a blob. */
  datatype Envelope = Envelope(salt: Salt, iv: Iv, tag: Tag, ciphertext: Bytes)

  /** `Buffer.concat([salt, iv, tag, encrypted])` (lib/encryption.js line 27). */
  function Frame(e: Envelope): (blob: Bytes)
    ensures |blob| == HEADER_LENGTH + |e.ciphertext|
    ensures blob[..HEADER_LENGTH] == e.salt + e.iv + e.tag
  {
    e.salt + e.iv + e.tag + e.ciphertext
  }

  /** The length check and the slices of decrypt (lib/encryption.js lines
      31-38): `None` for a blob shorter than 44 bytes, else the parts at
      offsets 0, 16, 28 and 44. */
  function Unframe(blob: Bytes): (r: Option<Envelope>)
    ensures r.None? <==> |blob| < HEADER_LENGTH
    ensures r.Some? ==> Frame(r.value) == blob
    ensures r.Some? ==> |r.value.ciphertext| == |blob| - HEADER_LENGTH
  {
    if |blob| < HEADER_LENGTH then None
    else
      var e := Envelope(blob[0..16], blob[16..28], blob[28..44], blob[44..]);
      assert Frame(e) == blob;
      Some(e)
  }

  /** Unframe inverts Frame: decrypt's slices recover exactly the salt, IV,
      tag and ciphertext that encrypt concatenated. */
  lemma UnframeFrame(e: Envelope)
    ensures Unframe(Frame(e)) == Some(e)
  {
    var blob := Frame(e);
    assert blob[0..16] == e.salt;
    assert blob[16..28] == e.iv;
    assert blob[28..44] == e.tag;
    assert blob[44..] == e.ciphertext;
  }

  /** A blob of exactly 44 bytes passes the length check with an empty
      ciphertext. */
  lemma HeaderOnlyBlob(blob: Bytes)
    requires |blob| == HEADER_LENGTH
    ensures Unframe(blob).Some? && Unframe(blob).value.ciphertext == []
  {
  }

  /* ---------------------------------------------------------------------- */
  /* deriveKey, encrypt, decrypt                                            */
  /* ---------------------------------------------------------------------- */

  /** deriveKey (lib/encryption.js lines 10-12): PBKDF2 with SHA-256, 100000
      iterations and a 32-byte result; a function of (password, salt) only.
      The key is 256 bits long, as AES-256 needs, when PBKDF2 honours the
      requested length. */
  function DeriveKey(p: Primitives, password: Bytes, salt: Bytes): (key: Bytes)
    ensures key == p.pbkdf2(password, salt, 100000, 32, Sha256)
    ensures KdfHonoursLength(p) ==> |key| == 32
  {
    p.pbkdf2(password, salt, PBKDF2_ITERATIONS, KEY_LENGTH, Sha256)
  }

  /** encrypt (lib/encryption.js lines 14-28), with the random salt and IV
      given: derive the key, seal the message, frame the result. */
  function Encrypt(p: Primitives, message: Bytes, password: Bytes, salt: Salt, iv: Iv): (blob: Bytes)
    ensures var sealed := p.seal(DeriveKey(p, password, salt), iv, message);
      Unframe(blob) == Some(Envelope(salt, iv, sealed.tag, sealed.ciphertext))
  {
    var key := DeriveKey(p, password, salt);
    var sealed := p.seal(key, iv, message);
    var e := Envelope(salt, iv, sealed.tag, sealed.ciphertext);
    UnframeFrame(e);
    Frame(e)
  }

  /** Why decrypt gives up. */
  datatype DecryptError =
    | MalformedInput          // shorter than 44 bytes: 'Invalid or corrupted encrypted data'
    | AuthenticationFailure   // the GCM tag does not verify: `final()` throws

  /** decrypt (lib/encryption.js lines 30-51): check the length, slice, derive
      the key from the stored salt, open with the stored IV and tag. */
  function Decrypt(p: Primitives, blob: Bytes, password: Bytes): (r: Result<Bytes, DecryptError>)
    ensures |blob| < HEADER_LENGTH <==> r == Failure(MalformedInput)
    ensures r.Failure? && |blob| >= HEADER_LENGTH ==> r.error == AuthenticationFailure
  {
    match Unframe(blob)
    case None => Failure(MalformedInput)
    case Some(e) =>
      var key := DeriveKey(p, password, e.salt);
      match p.open(key, e.iv, e.tag, e.ciphertext)
      case None => Failure(AuthenticationFailure)
      case Some(m) => Success(m)
  }

  /* ---------------------------------------------------------------------- */
  /* Properties                                                             */
  /* ---------------------------------------------------------------------- */

  /** The blob is 44 bytes longer than the message. */
  lemma EncryptLength(p: Primitives, message: Bytes, password: Bytes, salt: Salt, iv: Iv)
    requires SealKeepsLength(p)
    ensures |Encrypt(p, message, password, salt, iv)| == HEADER_LENGTH + |message|
  {
    var blob := Encrypt(p, message, password, salt, iv);
    assert Frame(Unframe(blob).value) == blob;
  }

  /** Decrypting a blob re-derives the key encrypt used: the salt it reads
      back is the salt encrypt stored. */
  lemma DecryptRederivesKey(p: Primitives, message: Bytes, password: Bytes, salt: Salt, iv: Iv)
    ensures var blob := Encrypt(p, message, password, salt, iv);
      |blob| >= HEADER_LENGTH
      && DeriveKey(p, password, Unframe(blob).value.salt) == DeriveKey(p, password, salt)
      && Unframe(blob).value.iv == iv
  {
  }

  /** Round trip: decrypting with the same password gives the message back. */
  lemma DecryptEncrypt(p: Primitives, message: Bytes, password: Bytes, salt: Salt, iv: Iv)
    requires OpenInvertsSeal(p)
    ensures Decrypt(p, Encrypt(p, message, password, salt, iv), password) == Success(message)
  {
    var key := DeriveKey(p, password, salt);
    var sealed := p.seal(key, iv, message);
    assert p.open(key, iv, sealed.tag, sealed.ciphertext) == Some(message);
  }

  /** A blob decrypts only if it is exactly what encrypt makes of the
      plaintext, the password, and the salt and IV stored in the blob. */
  lemma DecryptAuthentic(p: Primitives, blob: Bytes, password: Bytes, message: Bytes)
    requires OpenAuthenticates(p)
    requires Decrypt(p, blob, password) == Success(message)
    ensures |blob| >= HEADER_LENGTH
    ensures blob == Encrypt(p, message, password, blob[..SALT_LENGTH], blob[SALT_LENGTH..SALT_LENGTH + IV_LENGTH])
  {
    var e := Unframe(blob).value;
    var key := DeriveKey(p, password, e.salt);
    assert p.open(key, e.iv, e.tag, e.ciphertext) == Some(message);
    assert p.seal(key, e.iv, message) == Sealed(e.ciphertext, e.tag);
    assert Frame(e) == blob;
    assert e.salt == blob[..SALT_LENGTH] && e.iv == blob[SALT_LENGTH..SALT_LENGTH + IV_LENGTH];
    UnframeFrame(e);
  }

  /** No plaintext seals to `sealed` under `key` and `iv`. */
  ghost predicate Unforgeable(p: Primitives, key: Bytes, iv: Bytes, sealed: Sealed)
  {
    forall m: Bytes :: p.seal(key, iv, m) != sealed
  }

  /** A blob whose tag and ciphertext no plaintext seals to under the key
      derived from this password (a wrong password, or an altered tag or
      ciphertext) is rejected with AuthenticationFailure: no plaintext is
      returned. */
  lemma DecryptRejectsForgery(p: Primitives, blob: Bytes, password: Bytes)
    requires OpenAuthenticates(p)
    requires |blob| >= HEADER_LENGTH
    requires Unforgeable(p, DeriveKey(p, password, blob[..SALT_LENGTH]), blob[SALT_LENGTH..SALT_LENGTH + IV_LENGTH],
                         Sealed(blob[HEADER_LENGTH..], blob[SALT_LENGTH + IV_LENGTH..HEADER_LENGTH]))
    ensures Decrypt(p, blob, password) == Failure(AuthenticationFailure)
  {
    var e := Unframe(blob).value;
    assert e.salt == blob[..SALT_LENGTH] && e.iv == blob[SALT_LENGTH..SALT_LENGTH + IV_LENGTH];
    assert e.tag == blob[SALT_LENGTH + IV_LENGTH..HEADER_LENGTH] && e.ciphertext == blob[HEADER_LENGTH..];
    var key := DeriveKey(p, password, e.salt);
    if p.open(key, e.iv, e.tag, e.ciphertext).Some? {
      assert false;
    }
  }

  /** Fresh randomness gives distinct blobs: encryptions with different salts
      or different IVs never coincide. */
  lemma DistinctNoncesDistinctBlobs(p: Primitives, m1: Bytes, m2: Bytes, pw1: Bytes, pw2: Bytes,
                                    salt1: Salt, salt2: Salt, iv1: Iv, iv2: Iv)
    requires salt1 != salt2 || iv1 != iv2
    ensures Encrypt(p, m1, pw1, salt1, iv1) != Encrypt(p, m2, pw2, salt2, iv2)
  {
    var b1, b2 := Encrypt(p, m1, pw1, salt1, iv1), Encrypt(p, m2, pw2, salt2, iv2);
    assert Unframe(b1).value.salt == salt1 && Unframe(b2).value.salt == salt2;
    assert Unframe(b1).value.iv == iv1 && Unframe(b2).value.iv == iv2;
  }
}
