/** The two wire formats, `nonce || ciphertext || tag`: handshake messages
    carry the 11-byte AES-CCM nonce, application messages the 8-byte AES-CTR
    nonce, and both a 16-byte tag. Receivers cut messages apart with Python
    slices: `m[:n]`, `m[n:-16]`, `m[-16:]`, and `m[:-16]` for what the tag covers. */
module Framing {
  import opened Slicing

  const HandshakeNonceLength: nat := 11
  const ChannelNonceLength: nat := 8
  const TagLength: nat := 16

  function Frame<T>(nonce: seq<T>, body: seq<T>, tag: seq<T>): seq<T>
  {
    nonce + body + tag
  }

  function NoncePart<T>(m: seq<T>, nonceLength: nat): seq<T>
  {
    Slice(m, 0, nonceLength)
  }

  function BodyPart<T>(m: seq<T>, nonceLength: nat): seq<T>
  {
    Slice(m, nonceLength, -(TagLength as int))
  }

  function TagPart<T>(m: seq<T>): seq<T>
  {
    Slice(m, -(TagLength as int), |m|)
  }

  /** `m[:-16]`: everything the tag is computed over. */
  function Covered<T>(m: seq<T>): seq<T>
  {
    Slice(m, 0, -(TagLength as int))
  }

  /** Cutting a framed message gives back exactly its nonce, body and tag,
      and the part the tag covers is `nonce || body`. */
  lemma Unframe<T>(nonce: seq<T>, body: seq<T>, tag: seq<T>)
    requires |tag| == TagLength
    ensures var m := Frame(nonce, body, tag);
      && NoncePart(m, |nonce|) == nonce
      && BodyPart(m, |nonce|) == body
      && TagPart(m) == tag
      && Covered(m) == nonce + body
  {
    var m := Frame(nonce, body, tag);
    assert m[..|nonce|] == nonce;
    assert m[|nonce|..|m| - 16] == body;
    assert m[|m| - 16..] == tag;
    assert m[..|m| - 16] == nonce + body;
  }

  /** Conversely, a message of at least `nonceLength + 16` bytes is the frame
      of its three parts. */
  lemma Reframe<T>(m: seq<T>, nonceLength: nat)
    requires |m| >= nonceLength + TagLength
    ensures |NoncePart(m, nonceLength)| == nonceLength && |TagPart(m)| == TagLength
    ensures Frame(NoncePart(m, nonceLength), BodyPart(m, nonceLength), TagPart(m)) == m
  {
    assert m == m[..nonceLength] + m[nonceLength..|m| - 16] + m[|m| - 16..];
  }

  /** A non-empty message shorter than a nonce and a tag, even one shorter
      than the nonce alone, has an empty body: its nonce and tag parts
      overlap. */
  lemma ShortFrame<T>(m: seq<T>, nonceLength: nat)
    requires 0 < nonceLength && 0 < |m| < nonceLength + TagLength
    ensures BodyPart(m, nonceLength) == []
    ensures |NoncePart(m, nonceLength)| + |TagPart(m)| > |m|
  {
  }
}
