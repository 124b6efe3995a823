/** The protocol object: one session with one peer. Its fields are the ones
    the methods update in place; each method states its whole new state in
    terms of the functions of module Handshake and SecureChannel. The
    library primitives are given to the constructor; the clock and the
    random bytes are inputs of the methods that read them. */
module Session {
  import opened Outcomes
  import opened ByteStrings
  import opened Decimal
  import opened DiffieHellman
  import opened Crypto
  import opened Framing
  import opened Handshake
  import opened SecureChannel

  class Protocol {
    const crypto: Primitives
    var sessionKey: Option<Bytes>     // `_skey`
    var integrityKey: Option<Bytes>   // `_ikey`
    var expE: Option<nat>
    var expI: Option<nat>
    var isClient: bool
    var sharedSecret: Option<Bytes>
    var timestamp: int

    /** A fresh object: no secret, no keys, no exponents, timestamp 0. */
    constructor (crypto: Primitives)
      ensures this.crypto == crypto
      ensures sessionKey == None && integrityKey == None
      ensures expE == None && expI == None
      ensures !isClient && sharedSecret == None && timestamp == 0
    {
      this.crypto := crypto;
      sessionKey, integrityKey := None, None;
      expE, expI := None, None;
      isClient := false;
      sharedSecret := None;
      timestamp := 0;
    }

    /** The shared secret is the SHA-256 digest of the UTF-8 passphrase; the
        same passphrase always gives the same secret. */
    method SetSharedSecret(ss: string)
      modifies this
      ensures sharedSecret == Some(crypto.sha256(crypto.utf8Encode(ss)))
      ensures unchanged(this`sessionKey, this`integrityKey, this`expE, this`expI, this`isClient, this`timestamp)
    {
      sharedSecret := Some(crypto.sha256(crypto.utf8Encode(ss)));
    }

    /** The client's initiation: draws both exponents from 180 random bytes
        each, stores them and the clock, and returns the sealed
        `"CLNT" + str(timestamp) + "|" + partialEnc + "|" + partialInt`.
        The exponents and the timestamp are stored before `str(timestamp)`
        runs, so a clock with too many digits fails the call with them stored. */
    method GetProtocolInitiationMessage(randE: Bytes, randI: Bytes, now: int, nonce: Bytes) returns (r: Result<Bytes>)
      modifies this
      ensures old(sharedSecret).None? ==> r == Err(SecretNotSet) && unchanged(this)
      ensures old(sharedSecret).Some? ==>
        && expE == Some(FromBytes(randE)) && expI == Some(FromBytes(randI)) && timestamp == now
        && r == HandshakeMessage(crypto, old(sharedSecret).value, nonce, ClientTag, now,
                                 Partial(FromBytes(randE)), Partial(FromBytes(randI)))
        && (r.Err? <==> IntToDecimal(now).None?)
        && unchanged(this`sessionKey, this`integrityKey, this`isClient, this`sharedSecret)
    {
      if sharedSecret.None? {
        return Err(SecretNotSet);
      }
      expE := Some(FromBytes(randE));
      expI := Some(FromBytes(randI));
      var partialEncKey := Partial(expE.value);
      var partialIntKey := Partial(expI.value);
      timestamp := now;
      MessageOfPartials(crypto, sharedSecret.value, nonce, ClientTag, now, expE.value, expI.value);
      r := HandshakeMessage(crypto, sharedSecret.value, nonce, ClientTag, timestamp, partialEncKey, partialIntKey);
    }

    /** `areSessionKeysNeeded`: true while either key is missing. */
    predicate SessionKeysNeeded()
      reads this
    {
      sessionKey.None? || integrityKey.None?
    }

    /** Processes a handshake message as the client (the server's reply) or as
        the server (a client's initiation). `now` is the integer clock, `randB`
        and `randBP` the server's 180 random bytes per exponent, `nonce` the
        server's CCM nonce. A failure before the keys are derived changes no
        field; otherwise both keys are installed and the exponents zeroed,
        and then the client returns nothing and the server returns its reply
        or, when the reply's timestamp has too many digits, fails. */
    method ProcessReceivedProtocolMessage(message: Bytes, isClient: bool, now: int, randB: Bytes, randBP: Bytes, nonce: Bytes)
      returns (r: Result<Option<Bytes>>)
      modifies this
      ensures var o := Process(crypto, old(sharedSecret), old(timestamp), old(expE), old(expI),
                               message, isClient, now, FromBytes(randB), FromBytes(randBP), nonce);
        && (o.Err? ==> r == Err(o.error) && unchanged(this))
        && (o.Ok? ==>
              && r == o.value.returned
              && sessionKey == Some(o.value.keys.encryption) && integrityKey == Some(o.value.keys.integrity)
              && expE == Some(0) && expI == Some(0)
              && unchanged(this`isClient, this`sharedSecret, this`timestamp))
    {
      var o := Process(crypto, sharedSecret, timestamp, expE, expI, message, isClient, now, FromBytes(randB), FromBytes(randBP), nonce);
      if o.Err? {
        return Err(o.error);
      }
      SetSessionKey(o.value.keys.encryption, o.value.keys.integrity);
      r := o.value.returned;
    }

    /** Installs both session keys and zeroes both exponents; nothing else changes. */
    method SetSessionKey(skey: Bytes, ikey: Bytes)
      modifies this
      ensures sessionKey == Some(skey) && integrityKey == Some(ikey)
      ensures expE == Some(0) && expI == Some(0)
      ensures !SessionKeysNeeded()
      ensures unchanged(this`isClient, this`sharedSecret, this`timestamp)
    {
      expE := Some(0);
      expI := Some(0);
      sessionKey := Some(skey);
      integrityKey := Some(ikey);
    }

    /** Fails exactly when a session key is missing; otherwise returns
        `nonce || AES-CTR(text) || HMAC(nonce || AES-CTR(text))`. */
    method EncryptAndProtectMessage(plainText: string, nonce: Bytes) returns (r: Result<Bytes>)
      ensures r.Err? <==> SessionKeysNeeded()
      ensures SessionKeysNeeded() ==> r == Err(KeysNotSet)
      ensures !SessionKeysNeeded() ==> r == Ok(Protect(crypto, sessionKey.value, integrityKey.value, nonce, plainText))
    {
      if sessionKey.None? || integrityKey.None? {
        return Err(KeysNotSet);
      }
      r := Ok(Protect(crypto, sessionKey.value, integrityKey.value, nonce, plainText));
    }

    /** Fails with `KeysNotSet` when a session key is missing; otherwise
        verifies the tag and only then decrypts. */
    method DecryptAndVerifyMessage(cipherText: Bytes) returns (r: Result<string>)
      ensures SessionKeysNeeded() ==> r == Err(KeysNotSet)
      ensures !SessionKeysNeeded() ==> r == Unprotect(crypto, sessionKey.value, integrityKey.value, cipherText)
    {
      if sessionKey.None? || integrityKey.None? {
        return Err(KeysNotSet);
      }
      r := Unprotect(crypto, sessionKey.value, integrityKey.value, cipherText);
    }
  }

  /** The caller's sequence for two objects sharing a passphrase: the client
      initiates, the server answers, the client processes the answer. Both
      then hold the same two keys, and a text the client protects is
      accepted by the server unchanged. When the server's answer is then
      delivered to the client a second time, the client accepts it and
      replaces its keys by the hash of the single byte 1. */
  method EstablishAndExchange(c: Primitives, passphrase: string,
                              randE: Bytes, randI: Bytes, clientClock: int, n1: Bytes,
                              randB: Bytes, randBP: Bytes, serverClock: int, n2: Bytes,
                              ctrNonce: Bytes, text: string)
    returns (clientKeys: (Option<Bytes>, Option<Bytes>), serverKeys: (Option<Bytes>, Option<Bytes>), received: Result<string>,
             replayed: Result<Option<Bytes>>, keysAfterReplay: (Option<Bytes>, Option<Bytes>))
    requires CcmSound(c) && Utf8Sound(c) && CtrSound(c) && HmacSound(c)
    requires |n1| == HandshakeNonceLength && |n2| == HandshakeNonceLength && |ctrNonce| == ChannelNonceLength
    requires clientClock >= serverClock - FreshnessWindow
    requires IntToDecimal(clientClock).Some? && IntToDecimal(clientClock + 1).Some?
    ensures clientKeys == serverKeys
    ensures clientKeys.0.Some? && clientKeys.1.Some?
    ensures received == Ok(text)
    ensures replayed == Ok(None)
    ensures keysAfterReplay == (Some(c.sha256([1])), Some(c.sha256([1])))
  {
    var client := new Protocol(c);
    var server := new Protocol(c);
    client.SetSharedSecret(passphrase);
    server.SetSharedSecret(passphrase);
    var initiation := client.GetProtocolInitiationMessage(randE, randI, clientClock, n1);
    HandshakeAgreement(c, client.sharedSecret.value, clientClock, FromBytes(randE), FromBytes(randI), n1,
                       server.timestamp, server.expE, server.expI, serverClock, FromBytes(randB), FromBytes(randBP), n2,
                       clientClock, 0, 0, []);
    var reply := server.ProcessReceivedProtocolMessage(initiation.value, false, serverClock, randB, randBP, n2);
    var done := client.ProcessReceivedProtocolMessage(reply.value.value, true, clientClock, [], [], []);
    clientKeys := (client.sessionKey, client.integrityKey);
    serverKeys := (server.sessionKey, server.integrityKey);
    var sent := client.EncryptAndProtectMessage(text, ctrNonce);
    ChannelRoundTrip(c, client.sessionKey.value, client.integrityKey.value, ctrNonce, text);
    received := server.DecryptAndVerifyMessage(sent.value);
    ReplayAccepted(c, Some(client.sharedSecret.value), clientClock, Some(FromBytes(randE)), Some(FromBytes(randI)),
                   reply.value.value, clientClock, 0, 0, []);
    replayed := client.ProcessReceivedProtocolMessage(reply.value.value, true, clientClock, [], [], []);
    keysAfterReplay := (client.sessionKey, client.integrityKey);
  }
}
