# Protocol: mutually authenticated key establishment and secure channel

This project models, in Dafny, the `Protocol` class of `Assignment3/protocol.py`:
two peers that share a passphrase run a handshake of two messages, each peer
derives two session keys from two Diffie–Hellman exchanges over the fixed
RFC 3526 group 14 (generator 2, 2048-bit MODP prime), and application
messages are then encrypted and authenticated under those keys.

What is modelled:

- **The object** (`Session.Protocol`): its fields `_skey`, `_ikey` (here
  `sessionKey`, `integrityKey`), `expE`, `expI`, `isClient`, `sharedSecret`
  and `timestamp`, with Python `None` as `Option.None`. Each mutating method
  `modifies this` and states its whole new state.
  `EncryptAndProtectMessage`, `DecryptAndVerifyMessage` and
  `SessionKeysNeeded` change nothing. A failure of
  `ProcessReceivedProtocolMessage` before both keys are derived changes no
  field. The one failure after that point is the server's `str(timestamp+1)`
  (below), and it leaves the keys installed.
- **The handshake** (`Handshake`): the plaintext
  `"CLNT"/"SRVR" + str(timestamp) + "|" + str(partialEnc) + "|" + str(partialInt)`
  and how the receiver parses it back (`split('|', 1)`, `first[:4]`,
  `int(first[4:])`, `second.split('|')`, `int(...)`). It also covers sealing
  under AES-CCM with the shared secret, the client's check on role and
  timestamp, the server's check on role and freshness, and the derivation
  `SHA256(int_to_bytes(pow(peer, own, modulus)))` of each key. The checks run
  in the order the code runs them, and each failure maps to one `Error`
  variant. Some variants cover several raise sites: `Malformed` is every
  failed `split` unpacking and every failed `int()`, `WrongRole` is either
  side's tag check, and `DigitLimit` is every failed `str()`.
- **The wire formats** (`Framing`): `nonce(11) || ct || tag(16)` for
  handshake messages and `nonce(8) || ct || tag(16)` for application
  messages. Messages are cut apart with Python slice semantics (`Slicing`),
  including what happens to messages that are too short.
- **The secure channel** (`SecureChannel`): AES-CTR with an HMAC over
  `nonce || ciphertext`. The tag is checked before anything is decrypted.
- **The Python built-ins the code depends on**: `int.bit_length`,
  `int.to_bytes` and `int.from_bytes` (`ByteStrings`); `str(int)` and
  `int(str)` (`Decimal`); `str.split` (`Strings`); three-argument `pow`
  (`DiffieHellman`). `str(int)` and `int(str)` carry CPython's default limit
  of 4300 digits per conversion (since Python 3.11 and the 2022 security
  releases). Beyond it both raise `ValueError`.

The cryptographic library calls are the function fields of
`Crypto.Primitives`, which is given to the constructor: SHA-256, AES-CCM
encrypt-and-digest and decrypt-and-verify, AES-CTR, HMAC, and UTF-8
encode and decode. Their standard properties are the predicates `CcmSound`,
`CtrSound`, `HmacSound` and `Utf8Sound`. Lemmas take these predicates as
hypotheses. The clock (`int(time.time())`) is a parameter `now`. The bytes
from `os.urandom` are parameters too: the 180 bytes behind each exponent,
and the CCM and CTR nonces.

Where the code and a natural reading of the protocol differ, the model
follows the code:

- A server reply delivered to the client a second time is accepted. The
  stored `timestamp` is never cleared, and `SetSessionKey` has zeroed the
  exponents. So the client replaces both keys by `SHA256(b'\x01')`, because
  `pow(x, 0, modulus) == 1` (`Handshake.ReplayAccepted`,
  `Session.EstablishAndExchange`).
- The server refuses only initiations that are too old. A timestamp exactly
  `now - 300` passes, and so does any timestamp in the future.
- `setSharedSecret` may be called any number of times; each call overwrites
  the secret.
- The server installs the session keys (`SetSessionKey`, line 108) before it
  builds its reply (line 109). Take the initiation whose timestamp is
  `10**4300 - 1`: it is fresh for any realistic clock, and `int()` accepts
  its 4300 digits. But `str(timestamp + 1)` has 4301 digits and raises, so the call fails
  with the keys already installed (`Handshake.ServerRaisesAfterInstalling`).
  A client's own `str(self.timestamp)` at line 44 likewise raises after the
  exponents and the timestamp are stored. A partial value always fits,
  because it is below the 2048-bit modulus.
- `DecryptAndVerifyMessage` has no length check. For a message shorter than
  24 bytes, the slices `[:8]`, `[8:-16]` and `[-16:]` overlap or come out
  empty, and only the HMAC comparison decides.

## Model

| member | source | states |
|---|---|---|
| `ByteStrings.IntToBytes` | Assignment3/protocol.py:59-60 | `int_to_bytes(i)` has `(i.bit_length() + 7) // 8` bytes and never overflows. It decodes big-endian back to `i`, is empty exactly when `i == 0`, and has no leading zero byte |
| `ByteStrings.ToBytes` | Assignment3/protocol.py:60 | a successful `to_bytes(length, 'big')` has exactly `length` bytes and decodes back to the integer |
| `ByteStrings.ToBytesFits` | Assignment3/protocol.py:60 | `to_bytes(length)` succeeds exactly when the integer's bit length is at most `8 * length` |
| `ByteStrings.ToBytesFromBytes` | Assignment3/protocol.py:39-40 | `from_bytes` followed by `to_bytes` of the same length gives the byte string back |
| `ByteStrings.FromBytes` | Assignment3/protocol.py:39-40 | `int.from_bytes(_, 'big')`, also as at lines 99-100. `ToBytesFromBytes` proves that `to_bytes` of the same length inverts it |
| `ByteStrings.BitLength` | Assignment3/protocol.py:60 | `int.bit_length()`. `ToBytesFits` proves that `to_bytes` succeeds exactly when it is at most `8 * length`, and `IntToBytes` sizes its result by it |
| `ByteStrings.MinimalEncoding` | Assignment3/protocol.py:59-60 | an encoding of `(bit_length + 7) // 8` bytes that decodes to `i` is empty exactly for 0 and starts with a nonzero byte |
| `ByteStrings.IntToBytesOne` | Assignment3/protocol.py:59-60 | `int_to_bytes(1)` is the single byte 1 |
| `Decimal.NatToDecimal` | Assignment3/protocol.py:44-45 | `str(n)` is a non-empty digit string with value `n` and no leading zero |
| `Decimal.ParseNatDecimal` | Assignment3/protocol.py:83-87 | `int(str(n)) == n` for every `n` whose decimal text is within the 4300-digit limit, so for the partial values |
| `Decimal.DecimalRoundTrip` | Assignment3/protocol.py:75 | `int(str(i)) == i` for every integer `str` accepts, negative timestamps included |
| `Decimal.IntToDecimal` | Assignment3/protocol.py:44-45 | `str(i)`: `None` exactly when `i` has more than 4300 digits. `DecimalRoundTrip` proves that `int` inverts it, and `LimitBoundary` that the limit falls between `10**4300 - 1` and `10**4300` |
| `Decimal.ParseInt` | Assignment3/protocol.py:75 | `int(s)` for ASCII text, as also used at lines 85, 87, 105 and 107. `DecimalRoundTrip` and `ParseNatDecimal` prove that it inverts `str`, and `ParseRejectsLong` that it refuses more than 4300 digits |
| `Decimal.ParseRejectsLong` | Assignment3/protocol.py:75 | `int()` of a digit string longer than 4300 digits raises, whatever its value |
| `Decimal.PowerOfTenDigits` | Assignment3/protocol.py:109 | `10**k - 1` has `k` digits and `10**k` has `k + 1` |
| `Decimal.LimitBoundary` | Assignment3/protocol.py:109 | `str(10**4300 - 1)` succeeds and `str(10**4300)` raises |
| `Decimal.DigitsBelowPowerOfTwo` | Assignment3/protocol.py:45 | a number below `2**k` has at most `k` decimal digits |
| `Strings.Split` | Assignment3/protocol.py:83 | `s.split(sep)` gives pieces that hold no separator and that join back to `s` with the separator |
| `Strings.SplitOnce` | Assignment3/protocol.py:74 | `s.split(sep, 1)` is `[s]` when `s` has no separator. Otherwise it is the text before the first separator and the text after it |
| `Strings.SplitPair` | Assignment3/protocol.py:103 | a text with exactly one separator splits into its two sides |
| `Strings.SplitNone` | Assignment3/protocol.py:83 | a text without a separator splits into itself alone, so unpacking it into two fails |
| `Strings.SplitOnceAt` | Assignment3/protocol.py:74 | `split('\|', 1)` cuts at the first separator even when the rest holds more |
| `DiffieHellman.ModPow` | Assignment3/protocol.py:41-42 | three-argument `pow` with modulus above 1 gives a residue below the modulus, also for a negative base |
| `DiffieHellman.ModPowZero` | Assignment3/protocol.py:85-87 | `pow(x, 0, m) == 1` for every base |
| `DiffieHellman.PowOfResidue` | Assignment3/protocol.py:85 | raising `x mod p` gives the same residue as raising `x` |
| `DiffieHellman.IteratedModPow` | Assignment3/protocol.py:105 | `pow(pow(g, a, p), b, p) == pow(g, a * b, p)` |
| `DiffieHellman.Agreement` | Assignment3/protocol.py:101-107 | `pow(pow(g, a, p), b, p) == pow(pow(g, b, p), a, p)` for every modulus above 1 |
| `DiffieHellman.GroupAgreement` | Assignment3/protocol.py:10-11 | the agreement holds for the protocol's own generator and modulus |
| `DiffieHellman.ModulusBelow` | Assignment3/protocol.py:11 | the modulus is below `2**2048` |
| `Framing.Unframe` | Assignment3/protocol.py:67-69 | slicing `nonce + ct + tag` (16-byte tag) by `[:len(nonce)]`, `[len(nonce):-16]`, `[-16:]` gives nonce, ciphertext and tag back. `[:-16]` is exactly `nonce + ct`, the bytes the HMAC covers |
| `Framing.Reframe` | Assignment3/protocol.py:144-150 | a message of at least nonce length + 16 bytes is the concatenation of its three slices |
| `Framing.ShortFrame` | Assignment3/protocol.py:66-69 | a non-empty message shorter than nonce + 16 bytes has an empty body slice, and its nonce and tag slices overlap. This includes messages shorter than the nonce alone |
| `Framing.Frame` | Assignment3/protocol.py:52 | `nonce + ciphertext + tag`, also as at lines 112 and 131-134. `Unframe` proves that the receiver's slices take it apart again |
| `Framing.NoncePart` | Assignment3/protocol.py:68 | `m[:n]`, also as at line 144. `Unframe` and `Reframe` state what it returns |
| `Framing.BodyPart` | Assignment3/protocol.py:69 | `m[n:-16]`, also as at line 150. `Unframe`, `Reframe` and `ShortFrame` state what it returns |
| `Framing.TagPart` | Assignment3/protocol.py:67 | `m[-16:]`, also as at line 148. `Unframe` and `Reframe` state what it returns |
| `Framing.Covered` | Assignment3/protocol.py:147 | `m[:-16]`, the bytes the HMAC covers. `Unframe` proves that it is `nonce + ciphertext` |
| `Slicing.Slice` | Assignment3/protocol.py:67-69 | Python's `s[start:stop]`, which counts negative bounds from the end and clamps every bound. `Framing.Unframe`, `Framing.Reframe` and `Framing.ShortFrame` state what the slices at lines 67-69 and 144-150 return |
| `Handshake.OpenHandshake` | Assignment3/protocol.py:65-71 | opening succeeds only with the secret set, a message longer than 16 bytes, and a tag that AES-CCM verifies on the sliced nonce and ciphertext |
| `Handshake.ClientFinish` | Assignment3/protocol.py:76-87 | role error exactly when the tag is not `"SRVR"`. Timestamp error exactly when the tag is right and the timestamp is not the stored value + 1. Success only when both exponents exist |
| `Handshake.ServerRespond` | Assignment3/protocol.py:90-112 | role error exactly when the tag is not `"CLNT"`. Freshness error exactly when the tag is right and the timestamp is below `now - 300`. After the keys, the reply fails exactly when `timestamp + 1` has more than 4300 digits |
| `Handshake.Process` | Assignment3/protocol.py:64-112 | once the keys are derived, a client call returns no message and a server call returns a reply. The only failure after that point is the server's digit-limit error |
| `Handshake.PlaintextRoundTrip` | Assignment3/protocol.py:74-75 | parsing a built `tag + str(ts) + "\|" + str(pE) + "\|" + str(pI)` gives back `tag`, `ts`, `pE` and `pI` for every 4-character tag without `'\|'` |
| `Handshake.BuildPlaintext` | Assignment3/protocol.py:45 | builds the plaintext, also as at line 109. Any `str` over the digit limit fails it. `PlaintextRoundTrip` proves that parsing recovers all four parts |
| `Handshake.ParseHeader` | Assignment3/protocol.py:74-75 | `split('\|', 1)`, `first[:4]` and `int(first[4:])`. `HeaderRoundTrip` and `PlaintextRoundTrip` prove that it reads back what was built |
| `Handshake.HeaderRoundTrip` | Assignment3/protocol.py:74-75 | a tag, a timestamp text without `'\|'` that `int` reads as `ts`, and any rest are read back as that tag, `ts` and rest |
| `Handshake.NoSeparatorInDecimal` | Assignment3/protocol.py:44-45 | `str(i)` never contains `'\|'` |
| `Handshake.SplitPartials` | Assignment3/protocol.py:83 | `second.split('\|')` unpacked into two, also as at line 103. `PlaintextRoundTrip` proves that it returns both partial texts of a built plaintext |
| `Handshake.DerivedKey` | Assignment3/protocol.py:84-87 | `SHA256(int_to_bytes(pow(int(p), e, modulus)))`, also as at lines 104-107. `DerivedKeyOfDecimal` and `DerivedKeyWithoutExponent` state its value |
| `Handshake.SealHandshake` | Assignment3/protocol.py:47-52 | the wire message `nonce + ciphertext + tag`, also as at lines 111-112. `OpenSealed` proves that the receiver opens it to the sealed plaintext |
| `Handshake.SharedKey` | Assignment3/protocol.py:84-87 | the key derivation `SHA256(int_to_bytes(pow(peer, own, modulus)))`, also as at lines 104-107. `HandshakeAgreement`, through `GroupAgreement`, proves that the client's and the server's keys agree. `DerivedKeyWithoutExponent` proves that a zeroed exponent gives `SHA256(b'\x01')` |
| `Handshake.Partial` | Assignment3/protocol.py:41-42 | `pow(generator, e, modulus)`, also as at lines 101-102. `GroupAgreement` proves that the two sides' keys agree, and `PartialFits` that `str` of it succeeds |
| `Handshake.HandshakeMessage` | Assignment3/protocol.py:44-52 | a handshake message fails to be built only with the digit-limit error |
| `Handshake.PartialFits` | Assignment3/protocol.py:45 | `str` of every partial value `pow(2, e, modulus)` succeeds, as also at line 109 |
| `Handshake.MessageOfPartials` | Assignment3/protocol.py:44-47 | a message carrying two partial values can be built exactly when `str(timestamp)` succeeds |
| `Handshake.OpenSealed` | Assignment3/protocol.py:47-52 | with the same secret, the receiver opens a sealed handshake message to exactly the plaintext that was sealed |
| `Handshake.DerivedKeyOfDecimal` | Assignment3/protocol.py:85-87 | the key derived from the text `str(v)`, within the digit limit, is `SHA256(int_to_bytes(pow(v, e, modulus)))` |
| `Handshake.ServerAnswersInitiation` | Assignment3/protocol.py:90-112 | the server accepts a client initiation exactly when its timestamp is `>= now - 300`, and otherwise signals a freshness error. On acceptance it installs the keys derived from the client's partials. It replies `"SRVR" + str(ts + 1)` with its own partials, or raises the digit-limit error, with the keys installed, exactly when `ts + 1` has too many digits |
| `Handshake.ServerRespondToPartials` | Assignment3/protocol.py:91-112 | on a client header carrying two partial values, the server branch gives the freshness error or both derived keys and its reply |
| `Handshake.ServerRaisesAfterInstalling` | Assignment3/protocol.py:105-109 | an initiation with timestamp `10**4300 - 1` installs both derived keys and then fails with the digit-limit error |
| `Handshake.ClientAcceptsExactly` | Assignment3/protocol.py:76-89 | the client accepts a sealed message exactly when its tag is `"SRVR"` and its timestamp is the stored value + 1. It signals a role error for any other tag, and on success installs the keys derived from the server's partials |
| `Handshake.HandshakeAgreement` | Assignment3/protocol.py:85-107 | when `str` accepts the timestamp and the timestamp + 1, and the server answers an initiation that the client then processes, client and server hold the same encryption key and the same integrity key |
| `Handshake.ReplayAccepted` | Assignment3/protocol.py:81-88 | once a reply was accepted, the same reply is accepted again with the exponents zeroed, and both keys become `SHA256(b'\x01')` |
| `Handshake.DerivedKeyWithoutExponent` | Assignment3/protocol.py:116-117 | with an exponent zeroed by `SetSessionKey`, the derived key is the hash of the one byte 1 |
| `SecureChannel.Unprotect` | Assignment3/protocol.py:141-152 | no text is released unless the HMAC over `m[:-16]` equals `m[-16:]`, and any mismatch is an integrity error |
| `SecureChannel.ChannelRoundTrip` | Assignment3/protocol.py:125-152 | decrypting what was encrypted under the same keys gives the original text, the empty text included |
| `SecureChannel.DistinctNonces` | Assignment3/protocol.py:128-131 | the same text under the same keys gives different messages for different nonces, with no assumption about the MAC |
| `SecureChannel.Protect` | Assignment3/protocol.py:128-136 | `nonce + AES-CTR(text) + HMAC(nonce + ciphertext)`. `ChannelRoundTrip` proves that `Unprotect` returns the text, and `DistinctNonces` that distinct nonces give distinct messages |
| `Session.Protocol.constructor` | Assignment3/protocol.py:16-23 | no keys, exponents or secret; not a client; timestamp 0 |
| `Session.Protocol.SetSharedSecret` | Assignment3/protocol.py:25-28 | the secret becomes `SHA256(utf8(ss))`, the same for the same passphrase; nothing else changes |
| `Session.Protocol.GetProtocolInitiationMessage` | Assignment3/protocol.py:32-52 | without a secret it fails and nothing changes. Otherwise it stores both exponents and the clock. It returns the sealed `"CLNT"` plaintext of the clock and both partials, and fails, with those fields stored, exactly when the clock has more than 4300 digits |
| `Session.Protocol.ProcessReceivedProtocolMessage` | Assignment3/protocol.py:64-112 | a failure before the keys are derived changes nothing. Otherwise it installs both keys and zeroes the exponents, then returns the reply (none for the client) or raises the server's digit-limit error. Secret, timestamp and role stay as they were |
| `Session.Protocol.SetSessionKey` | Assignment3/protocol.py:115-120 | it sets both keys and zeroes both exponents; afterwards `areSessionKeysNeeded()` is false and nothing else changes |
| `Session.Protocol.SessionKeysNeeded` | Assignment3/protocol.py:56-57 | `areSessionKeysNeeded()`: true while either key is `None`. `SetSessionKey` makes it false. `EncryptAndProtectMessage` fails exactly while it holds, and `DecryptAndVerifyMessage` returns the missing-key error whenever it holds |
| `Session.Protocol.EncryptAndProtectMessage` | Assignment3/protocol.py:125-136 | it fails exactly when `areSessionKeysNeeded()`. Otherwise it returns `nonce \|\| ctr \|\| HMAC(nonce \|\| ctr)` |
| `Session.Protocol.DecryptAndVerifyMessage` | Assignment3/protocol.py:141-152 | it fails with a missing-key error whenever `areSessionKeysNeeded()`. Otherwise it verifies the tag, then decrypts |
| `Session.EstablishAndExchange` | Assignment3/protocol.py:32-112 | two objects sharing a passphrase, with a clock whose text is within the digit limit, end the handshake with equal keys, and a text one side protects reaches the other unchanged. A second delivery of the server's reply is accepted and leaves the client with `SHA256(b'\x01')` as both keys |

The constants `generator` and `modulus` (10-11) are `DiffieHellman.Generator`
and `DiffieHellman.Modulus`. The five-minute window `60 * 5` (93) is
`Handshake.FreshnessWindow`. The 11-byte CCM nonce, the 8-byte CTR nonce and
the 16-byte tag of the slices at 66-69 and 144-150 are
`Framing.HandshakeNonceLength`, `Framing.ChannelNonceLength` and
`Framing.TagLength`.

## Left out

- SHA-256, AES-CCM (NIST SP 800-38C), AES-CTR (NIST SP 800-38A), HMAC-MD5
  (RFC 2104) and the UTF-8 codec: these are library calls, modelled as
  uninterpreted function parameters. No lemma depends on their internals.
- Tamper rejection for an arbitrary flipped byte: proving it needs
  MAC unforgeability, which is about the cryptography, not the code. What the
  model proves is that no text is released without a matching tag.
- Randomness and the clock: `os.urandom` results and `int(time.time())` are
  parameters of the methods that use them. The model does not capture that
  they are fresh or random. `DistinctNonces` covers only the case where
  two nonces differ.
- `int()` on non-ASCII text: Python also accepts Unicode digits and Unicode
  whitespace, while the model accepts only ASCII whitespace, an optional
  sign, and ASCII digits with single underscores. On non-ASCII text the
  model fails where Python might succeed.
- Only CPython's default digit limit of 4300 is modelled. A different limit
  set with `sys.set_int_max_str_digits`, or a Python without the limit, is not.
- The distinct Python exception classes: each failure maps to one `Error`
  variant, and some variants are shared by several raise sites. Exception messages are not modelled.
- Python's `assert` statements vanish under `python -O`. The model always
  checks them.
- Facts about the modulus such as primality or the safe-prime property are
  not used. The agreement lemma needs only `modulus > 1`.
- Concurrency: the object is single-threaded, and it is modelled that way.
