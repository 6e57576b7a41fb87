/** Machine integers: bitwise operators on unbounded naturals, masks as remainders, and the 32-bit conversion. */
module Masks {
  /** The C operator & on non-negative integers, bit by bit. */
  function BitAnd(x: nat, y: nat): nat {
    if x == 0 || y == 0 then 0
    else 2 * BitAnd(x / 2, y / 2) + (if x % 2 == 1 && y % 2 == 1 then 1 else 0)
  }

  function Pow2(k: nat): (p: nat)
    ensures p >= 1
  {
    if k == 0 then 1 else 2 * Pow2(k - 1)
  }

  /** The C operator % on non-negative integers, named so that proofs can treat it as a whole. */
  function Rem(x: nat, d: nat): nat
    requires d > 0
  {
    x % d
  }

  lemma HalfRem(x: nat, k: nat)
    ensures Rem(x, Pow2(k + 1)) == 2 * Rem(x / 2, Pow2(k)) + x % 2
  {
    var p := Pow2(k);
    var q, r := x / 2 / p, x / 2 % p;
    assert x / 2 == q * p + r;
    assert x == q * (2 * p) + (2 * r + x % 2);
    Remainder(x, 2 * p, q, 2 * r + x % 2);
  }

  lemma Remainder(x: nat, d: nat, q: nat, r: nat)
    requires r < d && x == q * d + r
    ensures x % d == r && x / d == q
  {
    var k := q - x / d;
    assert k * d == x % d - r;
    AtLeast(k, d);
    AtLeast(-k, d);
  }

  lemma AtLeast(k: int, d: nat)
    ensures k >= 1 ==> k * d >= d
  {
  }

  /** Masking with 2^k - 1 keeps the remainder modulo 2^k. */
  lemma {:induction false} MaskIsRem(x: nat, k: nat)
    ensures BitAnd(x, Pow2(k) - 1) == Rem(x, Pow2(k))
  {
    if k > 0 {
      hide BitAnd, Rem;
      MaskIsRem(x / 2, k - 1);
      BitAndOdd(x, Pow2(k - 1) - 1);
      HalfRem(x, k - 1);
    }
  }

  lemma BitAndOdd(x: nat, m: nat)
    ensures BitAnd(x, 2 * m + 1) == 2 * BitAnd(x / 2, m) + x % 2
  {
    assert (2 * m + 1) / 2 == m && (2 * m + 1) % 2 == 1;
  }

  lemma {:induction false} BitAndSelf(x: nat)
    ensures BitAnd(x, x) == x
  {
    if x > 0 {
      BitAndSelf(x / 2);
    }
  }

  /** The static_assert (N & (N - 1)) == 0 on a positive N says that N is a power of two. */
  lemma {:induction false} PowerOfTwo(n: nat) returns (k: nat)
    requires n >= 1 && BitAnd(n, n - 1) == 0
    ensures n == Pow2(k)
  {
    if n == 1 {
      k := 0;
    } else {
      BitAndSelf(n / 2);
      assert BitAnd(n, n - 1) >= 2 * BitAnd(n / 2, (n - 1) / 2);
      assert n % 2 == 0;
      assert (n - 1) / 2 == n / 2 - 1;
      k := PowerOfTwo(n / 2);
      k := k + 1;
    }
  }

  /** Under the static_asserts of the ring buffer, & (N - 1) is the remainder modulo N. */
  lemma RingMask(n: nat, x: nat)
    requires n >= 1 && BitAnd(n, n - 1) == 0
    ensures BitAnd(x, n - 1) == x % n
  {
    var k := PowerOfTwo(n);
    MaskIsRem(x, k);
  }

  /** The C operator ^ on non-negative integers, bit by bit. */
  function BitXor(x: nat, y: nat): nat {
    if x == 0 && y == 0 then 0
    else 2 * BitXor(x / 2, y / 2) + (if x % 2 != y % 2 then 1 else 0)
  }

  lemma {:induction false} XorTwice(x: nat, y: nat)
    ensures BitXor(BitXor(x, y), y) == x
  {
    if x != 0 || y != 0 {
      XorTwice(x / 2, y / 2);
      XorStep(BitXor(x / 2, y / 2), if x % 2 != y % 2 then 1 else 0, y);
    }
  }

  lemma XorStep(half: nat, bit: nat, y: nat)
    requires bit <= 1
    ensures BitXor(2 * half + bit, y) == 2 * BitXor(half, y / 2) + (if bit != y % 2 then 1 else 0)
  {
    assert (2 * half + bit) / 2 == half && (2 * half + bit) % 2 == bit;
  }

  /** Bit k of x. */
  function Bit(x: nat, k: nat): nat {
    x / Pow2(k) % 2
  }

  lemma BitStep(x: nat, k: nat)
    requires k > 0
    ensures Bit(x, k) == Bit(x / 2, k - 1)
  {
    var p := Pow2(k - 1);
    var q, r := x / 2 / p, x / 2 % p;
    assert x == q * (2 * p) + (2 * r + x % 2);
    Remainder(x, 2 * p, q, 2 * r + x % 2);
  }

  /** A bit of the exclusive or is set exactly where the two numbers differ. */
  lemma {:induction false} XorBits(x: nat, y: nat, k: nat)
    ensures Bit(BitXor(x, y), k) == 1 <==> Bit(x, k) != Bit(y, k)
    decreases k
  {
    if k == 0 {
      XorHalf(x, y);
    } else {
      hide Bit, BitXor;
      XorHalf(x, y);
      BitStep(x, k);
      BitStep(y, k);
      BitStep(BitXor(x, y), k);
      XorBits(x / 2, y / 2, k - 1);
    }
  }

  lemma XorHalf(x: nat, y: nat)
    ensures BitXor(x, y) / 2 == BitXor(x / 2, y / 2)
    ensures BitXor(x, y) % 2 == if x % 2 != y % 2 then 1 else 0
  {
  }

  /** Two n-bit numbers have an n-bit exclusive or. */
  lemma {:induction false} XorBound(x: nat, y: nat, n: nat)
    requires x < Pow2(n) && y < Pow2(n)
    ensures BitXor(x, y) < Pow2(n)
  {
    if n > 0 {
      XorBound(x / 2, y / 2, n - 1);
    }
  }

  /** The C conversion to a 32-bit int: the value modulo 2^32, in two's complement. */
  function ToInt32(x: int): (r: int)
    ensures -0x8000_0000 <= r < 0x8000_0000
  {
    (x + 0x8000_0000) % 0x1_0000_0000 - 0x8000_0000
  }

  /** std::min on integers. */
  function Smaller(x: int, y: int): int {
    if y < x then y else x
  }
}
