/** Machine words as natural numbers, with the bit operations the decoder uses on them.
    Every operation is defined by halving, so each property is a short induction. */
module Words {

  type u8 = x: nat | x < 0x100

  type u16 = x: nat | x < 0x1_0000

  /** 2 to the power n. */
  function Pow2(n: nat): (p: nat)
    ensures p > 0
  {
    if n == 0 then 1 else 2 * Pow2(n - 1)
  }

  /** Bit i of x, counting from the least significant. */
  predicate Bit(x: nat, i: nat) {
    if i == 0 then x % 2 == 1 else Bit(x / 2, i - 1)
  }

  function BitVal(b: bool): nat {
    if b then 1 else 0
  }

  /** `x >> k` */
  function Shr(x: nat, k: nat): nat {
    if k == 0 then x else Shr(x / 2, k - 1)
  }

  /** `x << k` without a width. */
  function Shl(x: nat, k: nat): nat {
    if k == 0 then x else 2 * Shl(x, k - 1)
  }

  /** `x & ((1 << n) - 1)` */
  function Low(x: nat, n: nat): nat {
    if n == 0 then 0 else x % 2 + 2 * Low(x / 2, n - 1)
  }

  /** `x | y` */
  function Or(x: nat, y: nat): nat {
    if x == 0 then y
    else if y == 0 then x
    else (if x % 2 == 1 || y % 2 == 1 then 1 else 0) + 2 * Or(x / 2, y / 2)
  }

  /** `x ^ y` */
  function Xor(x: nat, y: nat): nat {
    if x == 0 then y
    else if y == 0 then x
    else (if x % 2 != y % 2 then 1 else 0) + 2 * Xor(x / 2, y / 2)
  }

  /** `x & y` */
  function And(x: nat, y: nat): nat {
    if x == 0 || y == 0 then 0
    else (if x % 2 == 1 && y % 2 == 1 then 1 else 0) + 2 * And(x / 2, y / 2)
  }

  lemma {:induction false} BitZero(i: nat)
    ensures !Bit(0, i)
  {
    if i > 0 { BitZero(i - 1); }
  }

  lemma {:induction false} BitOr(x: nat, y: nat, i: nat)
    ensures Bit(Or(x, y), i) == (Bit(x, i) || Bit(y, i))
  {
    BitZero(i);
    if x != 0 && y != 0 && i > 0 { BitOr(x / 2, y / 2, i - 1); }
  }

  lemma {:induction false} BitAnd(x: nat, y: nat, i: nat)
    ensures Bit(And(x, y), i) == (Bit(x, i) && Bit(y, i))
  {
    BitZero(i);
    if x != 0 && y != 0 && i > 0 { BitAnd(x / 2, y / 2, i - 1); }
  }

  lemma {:induction false} BitShr(x: nat, k: nat, i: nat)
    ensures Bit(Shr(x, k), i) == Bit(x, i + k)
  {
    if k > 0 { BitShr(x / 2, k - 1, i); }
  }

  lemma {:induction false} BitShl(x: nat, k: nat, i: nat)
    ensures Bit(Shl(x, k), i) == (i >= k && Bit(x, i - k))
  {
    if k > 0 && i > 0 { BitShl(x, k - 1, i - 1); }
  }

  lemma {:induction false} BitLow(x: nat, n: nat, i: nat)
    ensures Bit(Low(x, n), i) == (i < n && Bit(x, i))
  {
    if n == 0 { BitZero(i); }
    else if i > 0 { BitLow(x / 2, n - 1, i - 1); }
  }

  lemma {:induction false} LowBound(x: nat, n: nat)
    ensures Low(x, n) < Pow2(n)
  {
    if n > 0 { LowBound(x / 2, n - 1); }
  }

  /** A number below 2^n has no bit at or above n. */
  lemma {:induction false} SmallBits(x: nat, n: nat, i: nat)
    requires x < Pow2(n) && n <= i
    ensures !Bit(x, i)
  {
    if n == 0 { BitZero(i); } else { SmallBits(x / 2, n - 1, i - 1); }
  }

  lemma {:induction false} OrBound(x: nat, y: nat, n: nat)
    requires x < Pow2(n) && y < Pow2(n)
    ensures Or(x, y) < Pow2(n)
  {
    if x != 0 && y != 0 { OrBound(x / 2, y / 2, n - 1); }
  }

  lemma {:induction false} ShrBound(x: nat, k: nat)
    ensures Shr(x, k) <= x
  {
    if k > 0 { ShrBound(x / 2, k - 1); }
  }

  /** Or-ing bits that do not meet is adding. */
  lemma {:induction false} OrDisjoint(x: nat, y: nat, n: nat)
    requires y < Pow2(n) && Low(x, n) == 0
    ensures Or(x, y) == x + y
  {
    if x != 0 && y != 0 { OrDisjoint(x / 2, y / 2, n - 1); }
  }

  lemma {:induction false} LowSmall(x: nat, n: nat)
    requires x < Pow2(n)
    ensures Low(x, n) == x
  {
    if n > 0 { LowSmall(x / 2, n - 1); }
  }

  /** The mask keeps the shorter of two cuts. */
  lemma {:induction false} LowLow(x: nat, m: nat, n: nat)
    requires n <= m
    ensures Low(Low(x, m), n) == Low(x, n)
  {
    if n > 0 { LowLow(x / 2, m - 1, n - 1); }
  }

  /** Adding 2^n leaves the low n bits alone. */
  lemma {:induction false} LowStride(x: nat, n: nat)
    ensures Low(x + Pow2(n), n) == Low(x, n)
  {
    if n > 0 {
      assert (x + Pow2(n)) / 2 == x / 2 + Pow2(n - 1);
      LowStride(x / 2, n - 1);
    }
  }

  /** Two numbers with the same low n bits are at least 2^n apart. */
  lemma {:induction false} LowGap(x: nat, y: nat, n: nat)
    requires x < y && Low(x, n) == Low(y, n)
    ensures y - x >= Pow2(n)
  {
    if n > 0 { LowGap(x / 2, y / 2, n - 1); }
  }

  /** The top bit of a cut, split off. */
  lemma {:induction false} LowTop(x: nat, n: nat)
    ensures Low(x, n + 1) == Low(x, n) + Shl(BitVal(Bit(x, n)), n)
  {
    if n > 0 { LowTop(x / 2, n - 1); }
  }

  lemma {:induction false} ShlAdd(x: nat, y: nat, k: nat)
    ensures Shl(x + y, k) == Shl(x, k) + Shl(y, k)
  {
    if k > 0 { ShlAdd(x, y, k - 1); }
  }

  lemma {:induction false} ShlMono(x: nat, y: nat, k: nat)
    requires x <= y
    ensures Shl(x, k) <= Shl(y, k)
  {
    if k > 0 { ShlMono(x, y, k - 1); }
  }

  lemma {:induction false} ShlShl(x: nat, j: nat, k: nat)
    ensures Shl(Shl(x, j), k) == Shl(x, j + k)
  {
    if k > 0 { ShlShl(x, j, k - 1); }
  }

  lemma {:induction false} ShlOne(k: nat)
    ensures Shl(1, k) == Pow2(k) && Shl(0, k) == 0
  {
    if k > 0 { ShlOne(k - 1); }
  }

  /** Two numbers that agree on their low n bits have the same cut. */
  lemma {:induction false} LowExt(x: nat, y: nat, n: nat)
    requires forall i: nat | i < n :: Bit(x, i) == Bit(y, i)
    ensures Low(x, n) == Low(y, n)
  {
    if n > 0 {
      assert Bit(x, 0) == Bit(y, 0);
      forall i: nat | i < n - 1 ensures Bit(x / 2, i) == Bit(y / 2, i) {
        assert Bit(x, i + 1) == Bit(y, i + 1);
      }
      LowExt(x / 2, y / 2, n - 1);
    }
  }

  /** Flipping every bit of an n-bit number, and setting every bit of it. */
  lemma {:induction false} MaskFull(x: nat, n: nat)
    requires x < Pow2(n)
    ensures Xor(Pow2(n) - 1, x) == Pow2(n) - 1 - x
    ensures Or(x, Pow2(n) - 1) == Pow2(n) - 1
  {
    if n > 0 {
      MaskFull(x / 2, n - 1);
      OnesHalf(n);
      if x > 0 && n > 1 { MaskFullStep(x, Pow2(n) - 1, Pow2(n - 1) - 1); }
    }
  }

  lemma OnesHalf(n: nat)
    requires n > 0
    ensures (Pow2(n) - 1) / 2 == Pow2(n - 1) - 1 && (Pow2(n) - 1) % 2 == 1
  {
  }

  lemma MaskFullStep(x: nat, m: nat, half: nat)
    requires m / 2 == half && m % 2 == 1 && x > 0
    requires Xor(half, x / 2) == half - x / 2 && Or(x / 2, half) == half
    ensures Xor(m, x) == m - x && Or(x, m) == m
  {
  }

  /** Or-ing in a shifted number leaves the bits below the shift alone. */
  lemma {:induction false} OrShifted(x: nat, y: nat, k: nat)
    ensures Or(x, Shl(y, k)) == Low(x, k) + Shl(Or(Shr(x, k), y), k)
  {
    if k > 0 {
      OrShifted(x / 2, y, k - 1);
      OrZero(x);
      OrZero(x / 2);
    }
  }

  lemma OrZero(x: nat)
    ensures Or(x, 0) == x && Or(0, x) == x
  {
  }

  /** The branch-free counter update of the wide refill: `(63 ^ bits) >> 3` bytes are taken and
      `bits |= 56` counts exactly those, for every count a shift can still use. */
  lemma WideRefillCount(bits: nat)
    requires bits <= 63
    ensures Or(bits, 56) == bits + 8 * Shr(Xor(63, bits), 3)
    ensures 56 <= Or(bits, 56) <= 63
    ensures Shr(Xor(63, bits), 3) <= 7
  {
    hide Or, Xor, Shr, Low;
    assert Pow2(3) == 8 && Pow2(6) == 64;
    assert Shl(7, 3) == 56;
    MaskFull(bits, 6);
    MaskFull(bits / 8, 3);
    ShrThree(bits);
    ShrThree(63 - bits);
    OrShifted(bits, 7, 3);
  }

  lemma ShrThree(x: nat)
    ensures Shr(x, 3) == x / 8 && Low(x, 3) == x % 8
  {
    assert Shr(x / 2 / 2, 1) == Shr(x / 2 / 2 / 2, 0) == x / 8;
    assert Shr(x, 3) == Shr(x / 2, 2) == Shr(x / 2 / 2, 1);
    assert Low(x / 2 / 2, 1) == x / 2 / 2 % 2;
    assert Low(x / 2, 2) == x / 2 % 2 + 2 * (x / 2 / 2 % 2);
  }

  /** Words are equal exactly when no bit differs. */
  lemma {:induction false} XorZero(a: nat, b: nat)
    ensures Xor(a, b) == 0 <==> a == b
  {
    if a > 0 && b > 0 {
      XorZero(a / 2, b / 2);
    }
  }

  /** All n bits differ exactly when the words are complements. */
  lemma {:induction false} XorComplement(a: nat, b: nat, n: nat)
    requires a < Pow2(n) && b < Pow2(n)
    ensures Xor(a, b) == Pow2(n) - 1 <==> a + b == Pow2(n) - 1
  {
    if a > 0 && b > 0 {
      XorComplement(a / 2, b / 2, n - 1);
      XorBound(a / 2, b / 2, n - 1);
      assert Pow2(n) == 2 * Pow2(n - 1);
    }
  }

  lemma {:induction false} XorBound(a: nat, b: nat, n: nat)
    requires a < Pow2(n) && b < Pow2(n)
    ensures Xor(a, b) < Pow2(n)
  {
    if a > 0 && b > 0 {
      XorBound(a / 2, b / 2, n - 1);
    }
  }
}
