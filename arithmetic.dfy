/** Integer powers and the facts about Euclidean division that the byte
    encoding and the Diffie-Hellman exchange rest on. */
module Arithmetic {

  /** `b ** e` on unbounded integers. */
  function Pow(b: int, e: nat): int
    decreases e
  {
    if e == 0 then 1 else b * Pow(b, e - 1)
  }

  lemma {:induction false} PowPositive(b: int, e: nat)
    requires b > 0
    ensures Pow(b, e) > 0
    decreases e
  {
    if e > 0 {
      PowPositive(b, e - 1);
    }
  }

  lemma {:induction false} PowAdd(b: int, x: nat, y: nat)
    ensures Pow(b, x + y) == Pow(b, x) * Pow(b, y)
    decreases x
  {
    if x > 0 {
      PowAdd(b, x - 1, y);
      calc {
        Pow(b, x + y);
        b * Pow(b, (x - 1) + y);
        b * (Pow(b, x - 1) * Pow(b, y));
        (b * Pow(b, x - 1)) * Pow(b, y);
        Pow(b, x) * Pow(b, y);
      }
    }
  }

  lemma {:induction false} PowMul(b: int, x: nat, y: nat)
    ensures Pow(Pow(b, x), y) == Pow(b, x * y)
    decreases y
  {
    if y > 0 {
      PowMul(b, x, y - 1);
      assert x * y == x + x * (y - 1);
      PowAdd(b, x, x * (y - 1));
    }
  }

  /** Division is determined by any quotient and remainder that fit. */
  lemma DivUnique(a: int, d: int, q: int, r: int)
    requires d > 0 && 0 <= r < d && a == q * d + r
    ensures a / d == q && a % d == r
  {
    var k := q - a / d;
    if k != 0 {
      assert k * d == a % d - r;
      MulNonZero(k, d);
    }
  }

  lemma {:induction false} MulAtLeast(k: nat, d: nat)
    requires k > 0
    ensures k * d >= d
    decreases k
  {
    if k > 1 {
      MulAtLeast(k - 1, d);
      assert k * d == (k - 1) * d + d;
    }
  }

  lemma MulNonZero(k: int, d: int)
    requires d > 0 && k != 0
    ensures k * d >= d || k * d <= -d
  {
    if k > 0 {
      MulAtLeast(k, d);
    } else {
      MulAtLeast(-k, d);
      assert k * d == -((-k) * d);
    }
  }

  lemma MulMonotone(x: int, y: int, b: nat)
    requires x <= y
    ensures x * b <= y * b
  {
    assert y * b - x * b == (y - x) * b;
    if y > x {
      MulAtLeast(y - x, b);
    }
  }

  lemma DivDiv(a: nat, b: nat, c: nat)
    requires b > 0 && c > 0
    ensures a / b / c == a / (b * c)
  {
    var q, r := a / b, a % b;
    var q2, r2 := q / c, q % c;
    assert a == q * b + r;
    assert q == q2 * c + r2;
    assert (q2 * c + r2) * b == q2 * (b * c) + r2 * b;
    assert a == q2 * (b * c) + (r2 * b + r);
    MulMonotone(r2, c - 1, b);
    assert (c - 1) * b == b * c - b;
    DivUnique(a, b * c, q2, r2 * b + r);
  }

  lemma ModAddMultiple(k: int, x: int, m: int)
    requires m > 0
    ensures (k * m + x) % m == x % m
  {
    calc {
      k * m + x;
      k * m + ((x / m) * m + x % m);
      (k + x / m) * m + x % m;
    }
    DivUnique(k * m + x, m, k + x / m, x % m);
  }

  /** Reducing a factor modulo `m` does not change the product modulo `m`. */
  lemma ModMulLeft(a: int, b: int, m: int)
    requires m > 0
    ensures (a * b) % m == ((a % m) * b) % m
  {
    calc {
      a * b;
      ((a / m) * m + a % m) * b;
      ((a / m) * b) * m + (a % m) * b;
    }
    ModAddMultiple((a / m) * b, (a % m) * b, m);
  }
}
