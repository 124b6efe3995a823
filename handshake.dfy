/** The handshake of `Protocol`, as functions of the object's fields and of
    the call's inputs: building and parsing the plaintext
    `"CLNT"/"SRVR" + str(timestamp) + "|" + str(partialEnc) + "|" + str(partialInt)`,
    sealing and opening it with AES-CCM under the shared secret, the client's
    and the server's checks, and the two key derivations
    `SHA256(int_to_bytes(pow(peerPartial, ownExponent, modulus)))`.
    The class in module Session installs what these functions compute. */
module Handshake {
  import opened Outcomes
  import opened Arithmetic
  import opened ByteStrings
  import opened Decimal
  import opened Strings
  import opened Slicing
  import opened DiffieHellman
  import opened Crypto
  import opened Framing

  const ClientTag: string := "CLNT"
  const ServerTag: string := "SRVR"
  const Separator: char := '|'

  /** The server refuses initiations older than five minutes; there is no
      bound on timestamps in the future. */
  const FreshnessWindow: int := 60 * 5

  /** The plaintext of a handshake message; `str` of any of the three
      numbers raises when it has too many digits. */
  function BuildPlaintext(tag: string, timestamp: int, partialEnc: nat, partialInt: nat): Result<string>
  {
    match (IntToDecimal(timestamp), IntToDecimal(partialEnc), IntToDecimal(partialInt))
    case (Some(ts), Some(enc), Some(integ)) => Ok(tag + ts + [Separator] + enc + [Separator] + integ)
    case _ => Err(DigitLimit)
  }

  /** What a receiver reads first: `first, second = plaintext.split('|', 1)`,
      the tag `first[:4]`, the timestamp `int(first[4:])`, and the unparsed rest. */
  datatype Header = Header(tag: string, timestamp: int, partials: string)

  function ParseHeader(plaintext: string): Result<Header>
  {
    var parts := SplitOnce(plaintext, Separator);
    if |parts| != 2 then Err(Malformed)
    else
      var first := parts[0];
      match ParseInt(Slice(first, 4, |first|))
      case None => Err(Malformed)
      case Some(timestamp) => Ok(Header(Slice(first, 0, 4), timestamp, parts[1]))
  }

  /** `enc, int = second.split('|')`: exactly two partial values. */
  function SplitPartials(partials: string): Result<(string, string)>
  {
    var parts := Split(partials, Separator);
    if |parts| != 2 then Err(Malformed) else Ok((parts[0], parts[1]))
  }

  datatype SessionKeys = SessionKeys(encryption: Bytes, integrity: Bytes)

  /** One session key: `SHA256(int_to_bytes(pow(int(partial), exponent, modulus)))`.
      A missing exponent makes `pow` raise. */
  function DerivedKey(c: Primitives, partial: string, exponent: Option<nat>): Result<Bytes>
  {
    match ParseInt(partial)
    case None => Err(Malformed)
    case Some(v) =>
      if exponent.None? then Err(NoExponent)
      else Ok(SharedKey(c, v, exponent.value))
  }

  /** `AES.new(secret, AES.MODE_CCM)`, `encrypt_and_digest` of the UTF-8
      plaintext, and the wire message `cipher.nonce + ciphertext + MAC_tag`. */
  function SealHandshake(c: Primitives, secret: Bytes, nonce: Bytes, plaintext: string): Bytes
  {
    var sealed := c.ccmEncrypt(secret, nonce, c.utf8Encode(plaintext));
    Frame(nonce, sealed.0, sealed.1)
  }

  /** A handshake message on the wire: the plaintext is built, then sealed.
      Building it is the only step that can fail. */
  function HandshakeMessage(c: Primitives, secret: Bytes, nonce: Bytes,
                            tag: string, timestamp: int, partialEnc: nat, partialInt: nat): (r: Result<Bytes>)
    ensures r.Err? ==> r == Err(DigitLimit)
  {
    var plaintext :- BuildPlaintext(tag, timestamp, partialEnc, partialInt);
    Ok(SealHandshake(c, secret, nonce, plaintext))
  }

  /** The receiving side's first steps: the shared secret must be set, the
      message must be longer than a tag, then the message is cut into nonce,
      ciphertext and tag, decrypted and verified, and decoded from UTF-8. */
  function OpenHandshake(c: Primitives, secret: Option<Bytes>, message: Bytes): (r: Result<string>)
    ensures r.Ok? ==> secret.Some? && |message| > TagLength
    ensures r.Ok? ==> c.ccmDecrypt(secret.value, NoncePart(message, HandshakeNonceLength), BodyPart(message, HandshakeNonceLength), TagPart(message)).Some?
  {
    if secret.None? then Err(SecretNotSet)
    else if |message| <= TagLength then Err(MessageTooShort)
    else
      match c.ccmDecrypt(secret.value, NoncePart(message, HandshakeNonceLength), BodyPart(message, HandshakeNonceLength), TagPart(message))
      case None => Err(AuthenticationFailed)
      case Some(data) =>
        match c.utf8Decode(data)
        case None => Err(NotUtf8)
        case Some(text) => Ok(text)
  }

  /** The client branch after the header is read: the reply must carry the
      server's tag and exactly the stored timestamp plus one; then both keys
      are derived from the server's partial values and the stored exponents. */
  function ClientFinish(c: Primitives, h: Header, storedTimestamp: int, expE: Option<nat>, expI: Option<nat>): (r: Result<SessionKeys>)
    ensures r == Err(WrongRole) <==> h.tag != ServerTag
    ensures r == Err(TimestampMismatch) <==> h.tag == ServerTag && h.timestamp != storedTimestamp + 1
    ensures r.Ok? ==> expE.Some? && expI.Some?
  {
    if h.tag != ServerTag then Err(WrongRole)
    else if storedTimestamp + 1 != h.timestamp then Err(TimestampMismatch)
    else
      var partials :- SplitPartials(h.partials);
      var encryption :- DerivedKey(c, partials.0, expE);
      var integrity :- DerivedKey(c, partials.1, expI);
      Ok(SessionKeys(encryption, integrity))
  }

  /** What the server branch produces: the keys it installs and then its
      reply, or the failure to build the reply once the keys are installed. */
  datatype Reply = Reply(keys: SessionKeys, message: Result<Bytes>)

  /** The server branch after the header is read: the initiation must carry
      the client's tag and must not be older than the freshness window; the
      server draws its exponents `b`, `bP`, derives both keys from the
      client's partial values, and seals a reply carrying the received
      timestamp plus one and its own partial values; the reply cannot be
      built exactly when that timestamp has too many digits. */
  function ServerRespond(c: Primitives, secret: Bytes, h: Header, now: int, b: nat, bP: nat, nonce: Bytes): (r: Result<Reply>)
    ensures r == Err(WrongRole) <==> h.tag != ClientTag
    ensures r == Err(TimestampTooOld) <==> h.tag == ClientTag && h.timestamp < now - FreshnessWindow
    ensures r.Ok? ==> (r.value.message.Err? <==> IntToDecimal(h.timestamp + 1).None?)
  {
    if h.tag != ClientTag then Err(WrongRole)
    else if h.timestamp < now - FreshnessWindow then Err(TimestampTooOld)
    else
      var partialEnc := Partial(b);
      var partialInt := Partial(bP);
      var partials :- SplitPartials(h.partials);
      var encryption :- DerivedKey(c, partials.0, Some(b));
      var integrity :- DerivedKey(c, partials.1, Some(bP));
      MessageOfPartials(c, secret, nonce, ServerTag, h.timestamp + 1, b, bP);
      Ok(Reply(SessionKeys(encryption, integrity), HandshakeMessage(c, secret, nonce, ServerTag, h.timestamp + 1, partialEnc, partialInt)))
  }

  /** What `ProcessReceivedProtocolMessage` does once it has derived both
      keys: it installs `keys`, and then returns or raises `returned`. */
  datatype Outcome = Outcome(keys: SessionKeys, returned: Result<Option<Bytes>>)

  /** The server's reply as the value the call returns. */
  function AsReturned(message: Result<Bytes>): Result<Option<Bytes>>
  {
    match message
    case Ok(m) => Ok(Some(m))
    case Err(e) => Err(e)
  }

  /** `ProcessReceivedProtocolMessage(message, isClient)` on an object whose
      fields hold `secret`, `storedTimestamp`, `expE` and `expI`; `now` is the
      integer clock, `b`, `bP` the server's exponents and `nonce` its CCM
      nonce. An `Err` is a failure before any key is installed. Otherwise a
      client returns no message, and a server returns its reply or, with the
      keys already installed, fails to build it. */
  function Process(c: Primitives, secret: Option<Bytes>, storedTimestamp: int, expE: Option<nat>, expI: Option<nat>,
                   message: Bytes, isClient: bool, now: int, b: nat, bP: nat, nonce: Bytes): (r: Result<Outcome>)
    ensures r.Ok? && r.value.returned.Ok? ==> (isClient <==> r.value.returned.value.None?)
    ensures r.Ok? && r.value.returned.Err? ==> !isClient && r.value.returned.error == DigitLimit
  {
    var text :- OpenHandshake(c, secret, message);
    var h :- ParseHeader(text);
    if isClient then
      var keys :- ClientFinish(c, h, storedTimestamp, expE, expI);
      Ok(Outcome(keys, Ok(None)))
    else
      var reply :- ServerRespond(c, secret.value, h, now, b, bP, nonce);
      Ok(Outcome(reply.keys, AsReturned(reply.message)))
  }

  /** The partial value a side sends for exponent `e`: `pow(generator, e, modulus)`. */
  function Partial(e: nat): nat
  {
    ModPow(Generator, e, Modulus)
  }

  /** The key a side derives from the peer's partial value and its own exponent. */
  function SharedKey(c: Primitives, peerPartial: int, e: nat): Bytes
  {
    c.sha256(IntToBytes(ModPow(peerPartial, e, Modulus)))
  }

  // ---------------------------------------------------------------------
  // Properties

  /** Every partial value passes `str`: it is below the modulus, so below
      `2^2048`, so it has at most 2048 digits. */
  lemma PartialFits(e: nat)
    ensures IntToDecimal(Partial(e)) == Some(NatToDecimal(Partial(e)))
  {
    ModulusBelow();
    DigitsBelowPowerOfTwo(Partial(e), 2048);
  }

  /** A handshake message carrying two partial values can be built exactly
      when its timestamp passes `str`. */
  lemma MessageOfPartials(c: Primitives, secret: Bytes, nonce: Bytes, tag: string, timestamp: int, e1: nat, e2: nat)
    ensures HandshakeMessage(c, secret, nonce, tag, timestamp, Partial(e1), Partial(e2)).Ok? <==> IntToDecimal(timestamp).Some?
  {
    PartialFits(e1);
    PartialFits(e2);
  }

  /** Parsing a built plaintext recovers its tag, timestamp and both partial
      values, for every 4-character tag without a separator. */
  lemma PlaintextRoundTrip(tag: string, timestamp: int, partialEnc: nat, partialInt: nat)
    requires |tag| == 4 && Separator !in tag
    requires BuildPlaintext(tag, timestamp, partialEnc, partialInt).Ok?
    ensures ParseHeader(BuildPlaintext(tag, timestamp, partialEnc, partialInt).value)
         == Ok(Header(tag, timestamp, NatToDecimal(partialEnc) + [Separator] + NatToDecimal(partialInt)))
    ensures SplitPartials(NatToDecimal(partialEnc) + [Separator] + NatToDecimal(partialInt))
         == Ok((NatToDecimal(partialEnc), NatToDecimal(partialInt)))
    ensures ParseInt(NatToDecimal(partialEnc)) == Some(partialEnc)
    ensures ParseInt(NatToDecimal(partialInt)) == Some(partialInt)
  {
    var ts := IntToDecimal(timestamp).value;
    var enc, integ := NatToDecimal(partialEnc), NatToDecimal(partialInt);
    assert BuildPlaintext(tag, timestamp, partialEnc, partialInt).value == tag + ts + [Separator] + (enc + [Separator] + integ);
    NoSeparatorInDecimal(timestamp);
    DecimalRoundTrip(timestamp);
    HeaderRoundTrip(tag, ts, timestamp, enc + [Separator] + integ);
    assert Separator !in enc && Separator !in integ;
    SplitPair(enc, integ, Separator);
    ParseNatDecimal(partialEnc);
    ParseNatDecimal(partialInt);
  }

  /** The decimal text of an integer holds no separator. */
  lemma NoSeparatorInDecimal(i: int)
    requires IntToDecimal(i).Some?
    ensures Separator !in IntToDecimal(i).value
  {
    var ts := IntToDecimal(i).value;
    if i < 0 {
      assert forall k :: 0 < k < |ts| ==> ts[k] == NatToDecimal(-i)[k - 1];
    }
  }

  /** The header is read back from a tag, a timestamp text and the rest. */
  lemma HeaderRoundTrip(tag: string, ts: string, timestamp: int, rest: string)
    requires |tag| == 4 && Separator !in tag && Separator !in ts
    requires ParseInt(ts) == Some(timestamp)
    ensures ParseHeader(tag + ts + [Separator] + rest) == Ok(Header(tag, timestamp, rest))
  {
    var first := tag + ts;
    assert tag + ts + [Separator] + rest == first + [Separator] + rest;
    SplitOnceAt(first, rest, Separator);
    assert Slice(first, 4, |first|) == ts;
    assert Slice(first, 0, 4) == tag;
  }

  /** The handshake-message round trip: a receiver holding the same secret
      opens a sealed message to exactly the plaintext that was sealed. */
  lemma OpenSealed(c: Primitives, secret: Bytes, nonce: Bytes, plaintext: string)
    requires CcmSound(c) && Utf8Sound(c)
    requires |nonce| == HandshakeNonceLength
    ensures OpenHandshake(c, Some(secret), SealHandshake(c, secret, nonce, plaintext)) == Ok(plaintext)
  {
    var data := c.utf8Encode(plaintext);
    var sealed := c.ccmEncrypt(secret, nonce, data);
    Unframe(nonce, sealed.0, sealed.1);
  }

  lemma DerivedKeyOfDecimal(c: Primitives, v: nat, e: nat)
    requires |NatToDecimal(v)| <= MaxStrDigits
    ensures DerivedKey(c, NatToDecimal(v), Some(e)) == Ok(SharedKey(c, v, e))
  {
    ParseNatDecimal(v);
  }

  /** The server accepts a client initiation exactly when its timestamp is not
      older than `now - 300` (the boundary itself and any future timestamp
      pass). It then installs the keys derived from the client's partial
      values and replies with the server tag, the timestamp plus one and its
      own partial values; when the timestamp plus one has too many digits
      for `str`, the call raises after the keys are installed. */
  lemma ServerAnswersInitiation(c: Primitives, secret: Bytes, timestamp: int, a: nat, aP: nat, n1: Bytes,
                                storedTimestamp: int, expE: Option<nat>, expI: Option<nat>,
                                now: int, b: nat, bP: nat, n2: Bytes)
    requires CcmSound(c) && Utf8Sound(c)
    requires |n1| == HandshakeNonceLength
    requires IntToDecimal(timestamp).Some?
    ensures HandshakeMessage(c, secret, n1, ClientTag, timestamp, Partial(a), Partial(aP)).Ok?
    ensures var initiation := HandshakeMessage(c, secret, n1, ClientTag, timestamp, Partial(a), Partial(aP)).value;
      var r := Process(c, Some(secret), storedTimestamp, expE, expI, initiation, false, now, b, bP, n2);
      && (r.Ok? <==> timestamp >= now - FreshnessWindow)
      && (timestamp < now - FreshnessWindow ==> r == Err(TimestampTooOld))
      && (r.Ok? ==> r.value == Outcome(SessionKeys(SharedKey(c, Partial(a), b), SharedKey(c, Partial(aP), bP)),
                                      AsReturned(HandshakeMessage(c, secret, n2, ServerTag, timestamp + 1, Partial(b), Partial(bP)))))
      && (r.Ok? ==> (r.value.returned.Ok? <==> IntToDecimal(timestamp + 1).Some?))
      && (r.Ok? && IntToDecimal(timestamp + 1).None? ==> r.value.returned == Err(DigitLimit))
  {
    MessageOfPartials(c, secret, n1, ClientTag, timestamp, a, aP);
    MessageOfPartials(c, secret, n2, ServerTag, timestamp + 1, b, bP);
    var text := BuildPlaintext(ClientTag, timestamp, Partial(a), Partial(aP)).value;
    var initiation := HandshakeMessage(c, secret, n1, ClientTag, timestamp, Partial(a), Partial(aP)).value;
    assert initiation == SealHandshake(c, secret, n1, text);
    OpenSealed(c, secret, n1, text);
    PlaintextRoundTrip(ClientTag, timestamp, Partial(a), Partial(aP));
    var h := Header(ClientTag, timestamp, NatToDecimal(Partial(a)) + [Separator] + NatToDecimal(Partial(aP)));
    ServerRespondToPartials(c, secret, timestamp, a, aP, now, b, bP, n2);
    assert Process(c, Some(secret), storedTimestamp, expE, expI, initiation, false, now, b, bP, n2)
        == (match ServerRespond(c, secret, h, now, b, bP, n2)
            case Err(e) => Err(e)
            case Ok(reply) => Ok(Outcome(reply.keys, AsReturned(reply.message))));
  }

  /** The server branch on the header of a client initiation. */
  lemma ServerRespondToPartials(c: Primitives, secret: Bytes, timestamp: int, a: nat, aP: nat,
                                now: int, b: nat, bP: nat, n2: Bytes)
    ensures var h := Header(ClientTag, timestamp, NatToDecimal(Partial(a)) + [Separator] + NatToDecimal(Partial(aP)));
      ServerRespond(c, secret, h, now, b, bP, n2)
      == if timestamp < now - FreshnessWindow then Err(TimestampTooOld)
         else Ok(Reply(SessionKeys(SharedKey(c, Partial(a), b), SharedKey(c, Partial(aP), bP)),
                       HandshakeMessage(c, secret, n2, ServerTag, timestamp + 1, Partial(b), Partial(bP))))
  {
    PartialFits(a);
    PartialFits(aP);
    PlaintextRoundTrip(ClientTag, 0, Partial(a), Partial(aP));
    DerivedKeyOfDecimal(c, Partial(a), b);
    DerivedKeyOfDecimal(c, Partial(aP), bP);
  }

  /** An initiation whose timestamp is `10**4300 - 1`, the largest with
      4300 digits, is accepted whatever the clock says, but the reply's
      timestamp has 4301 digits: the server installs the keys and then
      raises. */
  lemma ServerRaisesAfterInstalling(c: Primitives, secret: Bytes, a: nat, aP: nat, n1: Bytes,
                                    storedTimestamp: int, expE: Option<nat>, expI: Option<nat>,
                                    now: int, b: nat, bP: nat, n2: Bytes)
    requires CcmSound(c) && Utf8Sound(c)
    requires |n1| == HandshakeNonceLength
    requires now <= Pow(10, MaxStrDigits) - 1 + FreshnessWindow
    ensures HandshakeMessage(c, secret, n1, ClientTag, Pow(10, MaxStrDigits) - 1, Partial(a), Partial(aP)).Ok?
    ensures var initiation := HandshakeMessage(c, secret, n1, ClientTag, Pow(10, MaxStrDigits) - 1, Partial(a), Partial(aP)).value;
      Process(c, Some(secret), storedTimestamp, expE, expI, initiation, false, now, b, bP, n2)
      == Ok(Outcome(SessionKeys(SharedKey(c, Partial(a), b), SharedKey(c, Partial(aP), bP)), Err(DigitLimit)))
  {
    LimitBoundary();
    ServerAnswersInitiation(c, secret, Pow(10, MaxStrDigits) - 1, a, aP, n1, storedTimestamp, expE, expI, now, b, bP, n2);
  }

  /** The client accepts a sealed handshake message exactly when it carries the
      server tag and the stored timestamp plus one; it then derives both keys
      from the server's partial values and its stored exponents. */
  lemma ClientAcceptsExactly(c: Primitives, secret: Bytes, tag: string, timestamp: int, pB: nat, pBP: nat, n: Bytes,
                             storedTimestamp: int, a: nat, aP: nat, now: int, b: nat, bP: nat, nonce: Bytes)
    requires CcmSound(c) && Utf8Sound(c)
    requires |n| == HandshakeNonceLength
    requires |tag| == 4 && Separator !in tag
    requires HandshakeMessage(c, secret, n, tag, timestamp, pB, pBP).Ok?
    ensures var message := HandshakeMessage(c, secret, n, tag, timestamp, pB, pBP).value;
      var r := Process(c, Some(secret), storedTimestamp, Some(a), Some(aP), message, true, now, b, bP, nonce);
      && (r.Ok? <==> tag == ServerTag && timestamp == storedTimestamp + 1)
      && (tag != ServerTag ==> r == Err(WrongRole))
      && (r.Ok? ==> r.value == Outcome(SessionKeys(SharedKey(c, pB, a), SharedKey(c, pBP, aP)), Ok(None)))
  {
    var text := BuildPlaintext(tag, timestamp, pB, pBP).value;
    OpenSealed(c, secret, n, text);
    PlaintextRoundTrip(tag, timestamp, pB, pBP);
    DerivedKeyOfDecimal(c, pB, a);
    DerivedKeyOfDecimal(c, pBP, aP);
  }

  /** Handshake correctness: when the server answers a client's initiation
      and the client processes that answer, both sides hold the same
      encryption key and the same integrity key. Both timestamps must pass
      `str`, or there is no initiation or no answer. */
  lemma HandshakeAgreement(c: Primitives, secret: Bytes, timestamp: int, a: nat, aP: nat, n1: Bytes,
                           serverTimestamp: int, serverExpE: Option<nat>, serverExpI: Option<nat>,
                           now: int, b: nat, bP: nat, n2: Bytes,
                           clientNow: int, unusedB: nat, unusedBP: nat, unusedNonce: Bytes)
    requires CcmSound(c) && Utf8Sound(c)
    requires |n1| == HandshakeNonceLength && |n2| == HandshakeNonceLength
    requires IntToDecimal(timestamp).Some? && IntToDecimal(timestamp + 1).Some?
    requires timestamp >= now - FreshnessWindow
    ensures HandshakeMessage(c, secret, n1, ClientTag, timestamp, Partial(a), Partial(aP)).Ok?
    ensures var initiation := HandshakeMessage(c, secret, n1, ClientTag, timestamp, Partial(a), Partial(aP)).value;
      var server := Process(c, Some(secret), serverTimestamp, serverExpE, serverExpI, initiation, false, now, b, bP, n2);
      && server.Ok? && server.value.returned.Ok? && server.value.returned.value.Some?
      && Process(c, Some(secret), timestamp, Some(a), Some(aP), server.value.returned.value.value, true, clientNow, unusedB, unusedBP, unusedNonce)
         == Ok(Outcome(server.value.keys, Ok(None)))
  {
    ServerAnswersInitiation(c, secret, timestamp, a, aP, n1, serverTimestamp, serverExpE, serverExpI, now, b, bP, n2);
    MessageOfPartials(c, secret, n2, ServerTag, timestamp + 1, b, bP);
    ClientAcceptsExactly(c, secret, ServerTag, timestamp + 1, Partial(b), Partial(bP), n2, timestamp, a, aP, clientNow, unusedB, unusedBP, unusedNonce);
    GroupAgreement(a, b);
    GroupAgreement(aP, bP);
  }

  /** A second delivery of a reply the client already accepted is accepted
      again: the stored timestamp is not cleared, and with the exponents
      zeroed both keys become the hash of `int_to_bytes(1)`, i.e. of the one
      byte 1, whatever the exchange was. */
  lemma ReplayAccepted(c: Primitives, secret: Option<Bytes>, storedTimestamp: int, expE: Option<nat>, expI: Option<nat>,
                       message: Bytes, now: int, b: nat, bP: nat, nonce: Bytes)
    requires Process(c, secret, storedTimestamp, expE, expI, message, true, now, b, bP, nonce).Ok?
    ensures Process(c, secret, storedTimestamp, Some(0), Some(0), message, true, now, b, bP, nonce)
         == Ok(Outcome(SessionKeys(c.sha256([1]), c.sha256([1])), Ok(None)))
  {
    var text := OpenHandshake(c, secret, message).value;
    var h := ParseHeader(text).value;
    var partials := SplitPartials(h.partials).value;
    DerivedKeyWithoutExponent(c, partials.0);
    DerivedKeyWithoutExponent(c, partials.1);
  }

  /** With a zeroed exponent, `pow(x, 0, modulus) == 1` and the key is the
      hash of the single byte 1. */
  lemma DerivedKeyWithoutExponent(c: Primitives, partial: string)
    requires ParseInt(partial).Some?
    ensures DerivedKey(c, partial, Some(0)) == Ok(c.sha256([1]))
  {
    ModPowZero(ParseInt(partial).value, Modulus);
    IntToBytesOne();
  }
}
