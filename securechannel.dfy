/** Application messages once the session keys are installed: AES-CTR under
    the encryption key with an 8-byte nonce, and an HMAC tag under the
    integrity key over `nonce || ciphertext`; the wire message is
    `nonce || ciphertext || tag`. */
module SecureChannel {
  import opened Outcomes
  import opened ByteStrings
  import opened Crypto
  import opened Framing

  /** `EncryptAndProtectMessage` once both keys are set; `nonce` is the
      cipher's random nonce. */
  function Protect(c: Primitives, sessionKey: Bytes, integrityKey: Bytes, nonce: Bytes, plaintext: string): Bytes
  {
    var body := c.ctr(sessionKey, nonce, c.utf8Encode(plaintext));
    Frame(nonce, body, c.hmac(integrityKey, nonce + body))
  }

  /** `DecryptAndVerifyMessage` once both keys are set: the HMAC over
      `message[:-16]` is checked against `message[-16:]` before anything is
      decrypted, so no plaintext is released for a message whose tag does not
      verify. */
  function Unprotect(c: Primitives, sessionKey: Bytes, integrityKey: Bytes, message: Bytes): (r: Result<string>)
    ensures r.Ok? ==> c.hmac(integrityKey, Covered(message)) == TagPart(message)
    ensures c.hmac(integrityKey, Covered(message)) != TagPart(message) ==> r == Err(IntegrityFailed)
  {
    if c.hmac(integrityKey, Covered(message)) != TagPart(message) then Err(IntegrityFailed)
    else
      match c.utf8Decode(c.ctr(sessionKey, NoncePart(message, ChannelNonceLength), BodyPart(message, ChannelNonceLength)))
      case None => Err(NotUtf8)
      case Some(text) => Ok(text)
  }

  /** Round trip: a message protected under a pair of keys is accepted under
      the same pair and yields the original text, the empty text included. */
  lemma ChannelRoundTrip(c: Primitives, sessionKey: Bytes, integrityKey: Bytes, nonce: Bytes, plaintext: string)
    requires CtrSound(c) && HmacSound(c) && Utf8Sound(c)
    requires |nonce| == ChannelNonceLength
    ensures Unprotect(c, sessionKey, integrityKey, Protect(c, sessionKey, integrityKey, nonce, plaintext)) == Ok(plaintext)
  {
    var body := c.ctr(sessionKey, nonce, c.utf8Encode(plaintext));
    Unframe(nonce, body, c.hmac(integrityKey, nonce + body));
  }

  /** Each call draws a new nonce, and messages protected under different
      nonces differ, even for the same text and keys. */
  lemma DistinctNonces(c: Primitives, sessionKey: Bytes, integrityKey: Bytes, n1: Bytes, n2: Bytes, plaintext: string)
    requires |n1| == ChannelNonceLength && |n2| == ChannelNonceLength && n1 != n2
    ensures Protect(c, sessionKey, integrityKey, n1, plaintext) != Protect(c, sessionKey, integrityKey, n2, plaintext)
  {
    var m1 := Protect(c, sessionKey, integrityKey, n1, plaintext);
    var m2 := Protect(c, sessionKey, integrityKey, n2, plaintext);
    assert m1[..ChannelNonceLength] == n1;
    assert m2[..ChannelNonceLength] == n2;
  }
}
