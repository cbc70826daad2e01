/**
 * The C operators the allocator applies to `unsigned long long` words
 * (`ukey_uint64`), modelled on unbounded naturals: subtraction and left
 * shift wrap modulo 2^64, and `|` and `&` are defined bit by bit.  The
 * lemmas turn them into plain arithmetic where the operands' bits are
 * disjoint or the mask is a run of low ones.
 */
module Words {

  const TwoTo64: int := 0x1_0000_0000_0000_0000

  /** A value of the C type `unsigned long long`. */
  type U64 = x: int | 0 <= x < TwoTo64

  function Pow2(n: nat): (p: nat)
    ensures p >= 1
  {
    if n == 0 then 1 else 2 * Pow2(n - 1)
  }

  /** `a - b` on unsigned 64-bit words: wraps around below zero. */
  function Sub64(a: U64, b: U64): (r: U64)
    ensures b <= a ==> r == a - b
    ensures a < b ==> r == a - b + TwoTo64
  {
    (a - b) % TwoTo64
  }

  /** `x << n` on an unsigned 64-bit word: bits shifted past bit 63 are lost. */
  function Shl64(x: U64, n: nat): (r: U64)
    requires n < 64
    // a word whose top n bits are clear loses nothing: the shift multiplies
    ensures x < Pow2(64 - n) ==> r == x * Pow2(n)
  {
    if x < Pow2(64 - n) then
      ShiftFits(x, n);
      (x * Pow2(n)) % TwoTo64
    else
      (x * Pow2(n)) % TwoTo64
  }

  lemma ShiftFits(x: nat, n: nat)
    requires n < 64 && x < Pow2(64 - n)
    ensures x * Pow2(n) < TwoTo64
    ensures (x * Pow2(n)) % TwoTo64 == x * Pow2(n)
  {
    var hi, lo := Pow2(64 - n), Pow2(n);
    Pow2Word();
    Pow2Add(64 - n, n);
    MulBelow(x, hi, lo);
    DivModUnique(x * lo, TwoTo64, 0, x * lo);
  }

  lemma Pow2Word()
    ensures Pow2(64) == TwoTo64
  {
    Pow2Values();
  }

  lemma MulBelow(x: nat, hi: nat, lo: nat)
    requires x < hi && lo >= 1
    ensures x * lo < hi * lo
  {
    MulAtLeast(hi - x, lo);
    assert hi * lo == x * lo + (hi - x) * lo;
  }

  /** Bitwise OR of two naturals, one bit at a time from the least significant. */
  function BitOr(a: nat, b: nat): (r: nat)
    // OR keeps every bit of both operands and adds no carries
    ensures a <= r && b <= r && r <= a + b
    decreases a + b
  {
    if a == 0 && b == 0 then 0
    else 2 * BitOr(a / 2, b / 2) + (if a % 2 == 1 || b % 2 == 1 then 1 else 0)
  }

  /** Bitwise AND of two naturals, one bit at a time from the least significant. */
  function BitAnd(a: nat, b: nat): (r: nat)
    // AND keeps only bits both operands have
    ensures r <= a && r <= b
    decreases a + b
  {
    if a == 0 || b == 0 then 0
    else 2 * BitAnd(a / 2, b / 2) + (if a % 2 == 1 && b % 2 == 1 then 1 else 0)
  }

  lemma {:induction false} Pow2Add(m: nat, n: nat)
    ensures Pow2(m + n) == Pow2(m) * Pow2(n)
  {
    if n > 0 {
      Pow2Add(m, n - 1);
    }
  }

  /** The powers of two the allocator's layout uses. */
  lemma Pow2Values()
    ensures Pow2(5) == 32 && Pow2(12) == 0x1000 && Pow2(17) == 0x2_0000
    ensures Pow2(22) == 0x40_0000 && Pow2(41) == 0x200_0000_0000
    ensures Pow2(42) == 0x400_0000_0000 && Pow2(63) == 0x8000_0000_0000_0000
    ensures Pow2(64) == TwoTo64
  {
    assert Pow2(1) == 2;
    Pow2Add(1, 1);
    assert Pow2(2) == 4;
    Pow2Add(2, 2);
    assert Pow2(4) == 16;
    Pow2Add(4, 1);
    assert Pow2(5) == 32;
    Pow2Add(4, 4);
    assert Pow2(8) == 256;
    Pow2Add(8, 4);
    assert Pow2(12) == 0x1000;
    Pow2Add(8, 8);
    assert Pow2(16) == 0x1_0000;
    Pow2Add(16, 1);
    assert Pow2(17) == 0x2_0000;
    Pow2Add(17, 5);
    assert Pow2(22) == 0x40_0000;
    Pow2Add(16, 5);
    assert Pow2(21) == 0x20_0000;
    Pow2Add(16, 16);
    assert Pow2(32) == 0x1_0000_0000;
    Pow2Add(32, 8);
    assert Pow2(40) == 0x100_0000_0000;
    Pow2Add(40, 1);
    assert Pow2(41) == 0x200_0000_0000;
    Pow2Add(41, 1);
    assert Pow2(42) == 0x400_0000_0000;
    Pow2Add(42, 21);
    assert Pow2(63) == 0x8000_0000_0000_0000;
    Pow2Add(32, 32);
  }

  lemma {:induction false} BitOrZero(a: nat)
    ensures BitOr(a, 0) == a
  {
    if a != 0 {
      BitOrZero(a / 2);
    }
  }

  /**
   * OR of a word whose low k bits are clear with a value that fits in k
   * bits is their sum: the two sets of bits do not overlap.
   */
  lemma {:induction false} BitOrDisjoint(a: nat, b: nat, k: nat)
    requires a % Pow2(k) == 0
    requires b < Pow2(k)
    ensures BitOr(a, b) == a + b
  {
    if k == 0 {
      assert b == 0;
      BitOrZero(a);
    } else if a != 0 || b != 0 {
      var h := Pow2(k - 1);
      var q := a / Pow2(k);
      assert a == (2 * q) * h + 0 by {
        assert Pow2(k) == 2 * h;
        assert a == q * Pow2(k);
      }
      DivModUnique(a, 2, q * h, 0);
      DivModUnique(a / 2, h, q, 0);
      BitOrDisjoint(a / 2, b / 2, k - 1);
    }
  }

  /** AND with k low one bits keeps the value modulo 2^k. */
  lemma {:induction false} BitAndLowMask(x: nat, k: nat)
    ensures BitAnd(x, Pow2(k) - 1) == x % Pow2(k)
  {
    if k == 0 {
    } else if x == 0 {
    } else {
      var m := Pow2(k) - 1;
      assert Pow2(k) == 2 * Pow2(k - 1);
      assert m / 2 == Pow2(k - 1) - 1 && m % 2 == 1;
      BitAndLowMask(x / 2, k - 1);
      assert x % Pow2(k) == 2 * ((x / 2) % Pow2(k - 1)) + x % 2 by {
        ModHalf(x, Pow2(k - 1));
      }
    }
  }

  lemma ModHalf(x: nat, p: nat)
    requires p >= 1
    ensures x % (2 * p) == 2 * ((x / 2) % p) + x % 2
  {
    var q := (x / 2) / p;
    var r := (x / 2) % p;
    assert x == q * (2 * p) + (2 * r + x % 2) by {
      assert x / 2 == q * p + r;
    }
    DivModUnique(x, 2 * p, q, 2 * r + x % 2);
  }

  /** Quotient and remainder are the only ones: the usual uniqueness of division. */
  lemma DivModUnique(x: int, d: int, q: int, r: int)
    requires d > 0 && 0 <= r < d
    requires x == q * d + r
    ensures x / d == q && x % d == r
  {
    var q', r' := x / d, x % d;
    assert (q - q') * d == r' - r;
    if q > q' {
      MulAtLeast(q - q', d);
    } else if q < q' {
      MulAtLeast(q' - q, d);
    }
  }

  lemma MulAtLeast(m: int, d: int)
    requires m >= 1 && d > 0
    ensures m * d >= d
  {
  }
}
