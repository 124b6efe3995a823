/** The library primitives the protocol calls, passed in as functions: their
    internals are not modelled. Each field stands for one library call. The
    predicates below are the standard properties of those primitives; lemmas
    take them as hypotheses, nothing assumes them. */
module Crypto {
  import opened Outcomes
  import opened ByteStrings

  datatype Primitives = Primitives(
    /** `SHA256.new(); update(data); digest()` */
    sha256: Bytes -> Bytes,
    /** `AES.new(key, AES.MODE_CCM, nonce=...).encrypt_and_digest(plaintext)`:
        (key, nonce, plaintext) to (ciphertext, tag) */
    ccmEncrypt: (Bytes, Bytes, Bytes) -> (Bytes, Bytes),
    /** `AES.new(key, AES.MODE_CCM, nonce=nonce).decrypt_and_verify(ciphertext, tag)`:
        `None` when the tag does not verify */
    ccmDecrypt: (Bytes, Bytes, Bytes, Bytes) -> Option<Bytes>,
    /** `AES.new(key, AES.MODE_CTR, nonce=nonce)` applied to data; encryption
        and decryption are the same keystream operation */
    ctr: (Bytes, Bytes, Bytes) -> Bytes,
    /** `Crypto.Hash.HMAC.new(key)`, `update(data)`, `digest()` (HMAC-MD5) */
    hmac: (Bytes, Bytes) -> Bytes,
    /** `str.encode('utf-8')` */
    utf8Encode: string -> Bytes,
    /** `bytes.decode('utf-8')`: `None` when the bytes are not UTF-8 */
    utf8Decode: Bytes -> Option<string>)

  /** AES-CCM: decrypt-and-verify under the same key and nonce inverts
      encrypt-and-digest, whose tag is 16 bytes long. */
  ghost predicate CcmSound(c: Primitives)
  {
    forall key, nonce, plaintext ::
      && |c.ccmEncrypt(key, nonce, plaintext).1| == 16
      && c.ccmDecrypt(key, nonce, c.ccmEncrypt(key, nonce, plaintext).0, c.ccmEncrypt(key, nonce, plaintext).1) == Some(plaintext)
  }

  /** AES-CTR: applying the keystream twice under the same key and nonce gives the data back. */
  ghost predicate CtrSound(c: Primitives)
  {
    forall key, nonce, data :: c.ctr(key, nonce, c.ctr(key, nonce, data)) == data
  }

  /** HMAC-MD5 digests are 16 bytes long. */
  ghost predicate HmacSound(c: Primitives)
  {
    forall key, data :: |c.hmac(key, data)| == 16
  }

  /** Decoding the UTF-8 encoding of a string gives the string back. */
  ghost predicate Utf8Sound(c: Primitives)
  {
    forall s :: c.utf8Decode(c.utf8Encode(s)) == Some(s)
  }
}
