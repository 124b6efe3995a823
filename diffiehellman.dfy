/** The fixed Diffie-Hellman group of the protocol and the agreement of the
    two sides' shared values. The group is generator 2 with the 2048-bit MODP
    prime of section 3 of RFC 3526 ("group 14"); only `Modulus > 1` is used. */
module DiffieHellman {
  import opened Arithmetic

  const Generator: nat := 2

  const Modulus: nat := 0xFFFFFFFFFFFFFFFFC90FDAA22168C234C4C6628B80DC1CD129024E088A67CC74020BBEA63B139B22514A08798E3404DDEF9519B3CD3A431B302B0A6DF25F14374FE1356D6D51C245E485B576625E7EC6F44C42E9A637ED6B0BFF5CB6F406B7EDEE386BFB5A899FA5AE9F24117C4B1FE649286651ECE45B3DC2007CB8A163BF0598DA48361C55D39A69163FA8FD24CF5F83655D23DCA3AD961C62F356208552BB9ED529077096966D670C354E4ABC9804F1746C08CA18217C32905E462E36CE3BE39E772C180E86039B2783A2EC07A28FB5C55DF06F4C52C9DE2BCBF6955817183995497CEA956AE515D2261898FA051015728E5A8AACAA68FFFFFFFFFFFFFFFF

  /** Python's three-argument `pow(b, e, m)` for a non-negative exponent and a
      modulus above 1: the result is the non-negative residue, also for a
      negative base. */
  function ModPow(b: int, e: nat, m: int): (r: nat)
    requires m > 1
    ensures r < m
  {
    Pow(b, e) % m
  }

  /** `pow(x, 0, m) == 1`: a zero exponent forgets the base. */
  lemma ModPowZero(b: int, m: int)
    requires m > 1
    ensures ModPow(b, 0, m) == 1
  {
    assert Pow(b, 0) == 1;
  }

  /** Raising a residue instead of the base itself gives the same result. */
  lemma {:induction false} PowOfResidue(b: int, e: nat, m: int)
    requires m > 1
    ensures Pow(b % m, e) % m == Pow(b, e) % m
    decreases e
  {
    if e > 0 {
      var r := b % m;
      calc {
        Pow(r, e) % m;
        (r * Pow(r, e - 1)) % m;
        { ModMulLeft(Pow(r, e - 1), r, m); }
        ((Pow(r, e - 1) % m) * r) % m;
        { PowOfResidue(b, e - 1, m); }
        ((Pow(b, e - 1) % m) * r) % m;
        { ModMulLeft(Pow(b, e - 1), r, m); }
        (Pow(b, e - 1) * r) % m;
        (r * Pow(b, e - 1)) % m;
        { ModMulLeft(b, Pow(b, e - 1), m); }
        (b * Pow(b, e - 1)) % m;
        Pow(b, e) % m;
      }
    }
  }

  /** `pow(pow(g, a, p), b, p) == pow(g, a * b, p)`. */
  lemma IteratedModPow(g: int, a: nat, b: nat, p: int)
    requires p > 1
    ensures ModPow(ModPow(g, a, p), b, p) == ModPow(g, a * b, p)
  {
    PowOfResidue(Pow(g, a), b, p);
    PowMul(g, a, b);
  }

  /** Diffie-Hellman agreement: each side raising the other's partial value to
      its own exponent reaches the same shared value. */
  lemma Agreement(g: int, a: nat, b: nat, p: int)
    requires p > 1
    ensures ModPow(ModPow(g, a, p), b, p) == ModPow(ModPow(g, b, p), a, p)
  {
    IteratedModPow(g, a, b, p);
    IteratedModPow(g, b, a, p);
    assert a * b == b * a;
  }

  /** The agreement for the protocol's own group. */
  lemma GroupAgreement(a: nat, b: nat)
    ensures Modulus > 1
    ensures ModPow(ModPow(Generator, a, Modulus), b, Modulus) == ModPow(ModPow(Generator, b, Modulus), a, Modulus)
  {
    Agreement(Generator, a, b, Modulus);
  }

  /** The modulus is a 2048-bit number, so every residue is below `2^2048`;
      the powers of two are built by repeated squaring. */
  lemma ModulusBelow()
    ensures Modulus < Pow(2, 2048)
  {
    assert Pow(2, 1) == 2;
    PowAdd(2, 1, 1);
    assert Pow(2, 2) == 0x4;
    PowAdd(2, 2, 2);
    assert Pow(2, 4) == 0x10;
    PowAdd(2, 4, 4);
    assert Pow(2, 8) == 0x100;
    PowAdd(2, 8, 8);
    assert Pow(2, 16) == 0x10000;
    PowAdd(2, 16, 16);
    assert Pow(2, 32) == 0x100000000;
    PowAdd(2, 32, 32);
    assert Pow(2, 64) == 0x10000000000000000;
    PowAdd(2, 64, 64);
    assert Pow(2, 128) == 0x100000000000000000000000000000000;
    PowAdd(2, 128, 128);
    assert Pow(2, 256) == 0x10000000000000000000000000000000000000000000000000000000000000000;
    PowAdd(2, 256, 256);
    assert Pow(2, 512) == 0x100000000000000000000000000000000000000000000000000000000000000000000000000000000000000000000000000000000000000000000000000000000;
    PowAdd(2, 512, 512);
    assert Pow(2, 1024) == 0x10000000000000000000000000000000000000000000000000000000000000000000000000000000000000000000000000000000000000000000000000000000000000000000000000000000000000000000000000000000000000000000000000000000000000000000000000000000000000000000000000000000000000000;
    PowAdd(2, 1024, 1024);
    assert Pow(2, 2048) == 0x100000000000000000000000000000000000000000000000000000000000000000000000000000000000000000000000000000000000000000000000000000000000000000000000000000000000000000000000000000000000000000000000000000000000000000000000000000000000000000000000000000000000000000000000000000000000000000000000000000000000000000000000000000000000000000000000000000000000000000000000000000000000000000000000000000000000000000000000000000000000000000000000000000000000000000000000000000000000000000000000000000000000000000000000000000000;
  }
}
