/** Byte strings and the big-endian integer conversions the protocol uses:
    `int.from_bytes(_, byteorder='big')` for the random exponents,
    `int.bit_length()` and `int.to_bytes(length, byteorder='big')` inside
    `Protocol.int_to_bytes`. */
module ByteStrings {
  import opened Outcomes
  import opened Arithmetic

  type Byte = x: int | 0 <= x < 256
  type Bytes = seq<Byte>

  /** `int.bit_length()` of a non-negative integer. */
  function BitLength(i: nat): nat
  {
    if i == 0 then 0 else 1 + BitLength(i / 2)
  }

  /** `int.from_bytes(s, byteorder='big')`. */
  function FromBytes(s: Bytes): nat
  {
    if s == [] then 0 else FromBytes(s[..|s| - 1]) * 256 + s[|s| - 1]
  }

  /** `i.to_bytes(length, byteorder='big')`: `None` stands for the
      `OverflowError` raised when `i` does not fit in `length` bytes. */
  function ToBytes(i: nat, length: nat): (r: Option<Bytes>)
    ensures r.Some? ==> |r.value| == length && FromBytes(r.value) == i
  {
    if length == 0 then
      if i == 0 then Some([]) else None
    else
      match ToBytes(i / 256, length - 1)
      case None => None
      case Some(prefix) =>
        var r := prefix + [i % 256];
        assert r[..|r| - 1] == prefix;
        Some(r)
  }

  lemma BitLengthHalf(i: nat)
    ensures BitLength(i / 2) == if i == 0 then 0 else BitLength(i) - 1
  {
  }

  lemma {:induction false} BitLengthShift(i: nat, k: nat)
    ensures Pow(2, k) > 0
    ensures BitLength(i / Pow(2, k)) == if BitLength(i) >= k then BitLength(i) - k else 0
    decreases k
  {
    PowPositive(2, k);
    if k > 0 {
      BitLengthShift(i / 2, k - 1);
      DivDiv(i, 2, Pow(2, k - 1));
      BitLengthHalf(i);
    }
  }

  lemma BitLengthByte(i: nat)
    ensures BitLength(i / 256) == if BitLength(i) >= 8 then BitLength(i) - 8 else 0
  {
    BitLengthShift(i, 8);
    assert Pow(2, 8) == 256;
  }

  /** `to_bytes` succeeds exactly when the bit length fits in the bytes. */
  lemma {:induction false} ToBytesFits(i: nat, length: nat)
    ensures ToBytes(i, length).Some? <==> BitLength(i) <= 8 * length
    decreases length
  {
    if length > 0 {
      ToBytesFits(i / 256, length - 1);
      BitLengthByte(i);
    }
  }

  /** `to_bytes` with the length of a byte string re-encodes it exactly. */
  lemma {:induction false} ToBytesFromBytes(s: Bytes)
    ensures ToBytes(FromBytes(s), |s|) == Some(s)
    decreases |s|
  {
    if s != [] {
      var prefix, last := s[..|s| - 1], s[|s| - 1];
      ToBytesFromBytes(prefix);
      DivUnique(FromBytes(s), 256, FromBytes(prefix), last);
      assert s == prefix + [last];
    }
  }

  /** A leading zero byte does not change the decoded value. */
  lemma {:induction false} FromBytesLeadingZero(s: Bytes)
    requires s != [] && s[0] == 0
    ensures FromBytes(s[1..]) == FromBytes(s)
    decreases |s|
  {
    if |s| > 1 {
      var prefix := s[..|s| - 1];
      FromBytesLeadingZero(prefix);
      assert prefix[1..] == s[1..][..|s| - 2];
    }
  }

  /** `Protocol.int_to_bytes`: the minimal big-endian encoding, of
      `(i.bit_length() + 7) // 8` bytes. It never overflows, decodes back to
      `i`, is empty exactly for 0 and has no leading zero byte. */
  function IntToBytes(i: nat): (r: Bytes)
    ensures |r| == (BitLength(i) + 7) / 8
    ensures FromBytes(r) == i
    ensures r == [] <==> i == 0
    ensures r != [] ==> r[0] != 0
  {
    var length := (BitLength(i) + 7) / 8;
    ToBytesFits(i, length);
    var r := ToBytes(i, length).value;
    MinimalEncoding(i, r);
    r
  }

  lemma MinimalEncoding(i: nat, r: Bytes)
    requires |r| == (BitLength(i) + 7) / 8 && FromBytes(r) == i
    ensures r == [] <==> i == 0
    ensures r != [] ==> r[0] != 0
  {
    if i == 0 {
      assert BitLength(i) == 0;
    } else {
      assert BitLength(i) >= 1;
    }
    if r != [] && r[0] == 0 {
      FromBytesLeadingZero(r);
      ToBytesFromBytes(r[1..]);
      ToBytesFits(i, |r| - 1);
    }
  }

  /** `int_to_bytes(1)` is the single byte 1. */
  lemma IntToBytesOne()
    ensures IntToBytes(1) == [1]
  {
    var r := IntToBytes(1);
    assert BitLength(1) == 1 + BitLength(0) == 1;
    assert |r| == 1;
    assert r[..0] == [];
    assert FromBytes(r) == FromBytes([]) * 256 + r[0];
    assert r == [r[0]];
  }
}
