/** Facts about powers of two and bitwise conjunction. */
module Bits {
  import opened Int32

  lemma {:induction false} Pow2Add(a: nat, b: nat)
    ensures Pow2(a + b) == Pow2(a) * Pow2(b)
  {
    if a > 0 {
      Pow2Add(a - 1, b);
    }
  }

  lemma {:induction false} Pow2Rises(a: nat, b: nat)
    requires a <= b
    ensures Pow2(a) <= Pow2(b)
  {
    if a < b {
      Pow2Rises(a, b - 1);
    }
  }

  lemma Pow2Values()
    ensures Pow2(31) == MAX + 1 && Pow2(32) == MODULUS && Pow2(12) == 4096 && Pow2(20) == 0x10_0000
  {
    assert Pow2(4) == 16 by {
      assert Pow2(2) == 4;
    }
    Pow2Add(4, 4);
    Pow2Add(8, 4);
    Pow2Add(8, 8);
    Pow2Add(16, 4);
    Pow2Add(16, 16);
    assert Pow2(32) == 2 * Pow2(31);
  }

  lemma {:induction false} AndSelf(x: nat)
    ensures AndNat(x, x) == x
  {
    if x > 0 {
      AndSelf(x / 2);
    }
  }

  /** The lowest `k` bits are the remainder of the division by 2^k. */
  lemma {:induction false} AndMask(x: nat, k: nat)
    ensures AndNat(x, Pow2(k) - 1) == x % Pow2(k)
  {
    if x == 0 || k == 0 {
      SmallRemainder(x, Pow2(k));
    } else {
      AndMask(x / 2, k - 1);
      MaskStep(x, Pow2(k - 1), Pow2(k));
    }
  }

  lemma SmallRemainder(x: nat, p: nat)
    requires x == 0 < p || p == 1
    ensures x % p == 0
  {
  }

  lemma MaskStep(x: nat, p: nat, q: nat)
    requires x > 0 && p > 0 && q == 2 * p && AndNat(x / 2, p - 1) == (x / 2) % p
    ensures AndNat(x, q - 1) == x % q
  {
    hide *;
    HalfRemainder(x, p);
    AndOdd(x, p - 1);
    assert 2 * (p - 1) + 1 == q - 1;
    hide AndNat;
  }

  /** Conjunction with an odd number, halved. */
  lemma AndOdd(x: nat, m: nat)
    requires x > 0
    ensures AndNat(x, 2 * m + 1) == x % 2 + 2 * AndNat(x / 2, m)
  {
    assert (2 * m + 1) % 2 == 1 && (2 * m + 1) / 2 == m;
  }

  lemma HalfRemainder(x: nat, p: nat)
    requires p > 0
    ensures x % (2 * p) == x % 2 + 2 * ((x / 2) % p)
  {
    var q, r := (x / 2) / p, (x / 2) % p;
    assert x / 2 == p * q + r;
    assert x == (2 * p) * q + (2 * r + x % 2);
    DivisionUnique(x, 2 * p, q, 2 * r + x % 2);
  }

  lemma DivisionUnique(x: int, d: nat, q: int, r: nat)
    requires d > 0 && x == d * q + r && r < d
    ensures x / d == q && x % d == r
  {
    var k := q - x / d;
    assert d * k == x % d - r;
    MultipleIsFar(d, k);
  }

  lemma MultipleIsFar(d: int, k: int)
    requires d > 0
    ensures k >= 1 ==> d * k >= d
    ensures k <= -1 ==> d * k <= -d
  {
  }

  lemma QuotientIsSmall(a: nat, p: nat)
    requires p > 0
    ensures 0 <= a / p <= a && a == p * (a / p) + a % p && 0 <= a % p < p
  {
    var q := a / p;
    assert p * q <= a;
    if p >= 1 {
      assert p * q >= q;
    }
  }

  /** The base-two logarithm of a power of two, found by shifting. */
  function Log2(x: nat): nat
    requires x > 0
  {
    if x == 1 then 0 else 1 + Log2(x / 2)
  }

  lemma {:induction false} Log2Pow2(k: nat)
    ensures Log2(Pow2(k)) == k
  {
    if k > 0 {
      Log2Pow2(k - 1);
      assert Pow2(k) / 2 == Pow2(k - 1);
    }
  }

  /** A positive number shares no bit with its predecessor exactly if it is a power of two. */
  lemma {:induction false} PowerOfTwoTest(x: nat)
    requires x > 0
    ensures AndNat(x, x - 1) == 0 <==> x == Pow2(Log2(x))
  {
    if x % 2 == 1 {
      assert (x - 1) / 2 == x / 2 && (x - 1) % 2 == 0;
      AndSelf(x / 2);
      if x > 1 {
        assert AndNat(x, x - 1) == 2 * AndNat(x / 2, x / 2);
        assert Pow2(Log2(x)) == 2 * Pow2(Log2(x / 2));
      }
    } else {
      PowerOfTwoTest(x / 2);
      assert (x - 1) / 2 == x / 2 - 1 && (x - 1) % 2 == 1;
      assert AndNat(x, x - 1) == 2 * AndNat(x / 2, x / 2 - 1);
    }
  }

  /** For a dividend that is not negative, a shift is the quotient and a mask the remainder. */
  lemma NonNegativeDivision(a: i32, k: nat)
    requires a >= 0 && k <= 30
    ensures Pow2(k) <= MAX && Shr(a, k) == Div(a, Pow2(k)) && And(a, Pow2(k) - 1) == Rem(a, Pow2(k))
  {
    hide AndNat, Rem, Wrap;
    assert Pow2(k) <= MAX by {
      Pow2Values();
      Pow2Rises(k, 30);
    }
    AndMask(a, k);
    hide Pow2, AndNat, Div, Rem, Unsigned, Wrap;
    var p := Pow2(k);
    NonNegativeQuotient(a, p);
    UnsignedSmall(a);
    UnsignedSmall(p - 1);
  }

  lemma UnsignedSmall(x: i32)
    requires x >= 0
    ensures Unsigned(x) == x
  {
  }

  lemma NonNegativeQuotient(a: i32, p: i32)
    requires a >= 0 && p > 0
    ensures Div(a, p) == a / p && Rem(a, p) == a % p && 0 <= a / p <= a && 0 <= a % p <= a
  {
    QuotientIsSmall(a, p);
    RemainderIsSmall(a, p);
    assert TruncDiv(a, p) == a / p;
    assert TruncRem(a, p) == a - p * (a / p);
  }

  lemma RemainderIsSmall(a: nat, p: nat)
    requires p > 0
    ensures a % p <= a
  {
    QuotientIsSmall(a, p);
    ProductNonNegative(p, a / p);
  }

  lemma ProductNonNegative(a: nat, b: nat)
    ensures a * b >= 0
  {
  }
}
