/** Unsigned machine integers and the bitwise operators the interpreter uses.

    Values are mathematical integers restricted to the width of the Rust type
    they stand for; wrap-around is always written out (`% 0x100`, `% 0x1_0000`),
    which is what a release build (no overflow checks) does.  The bitwise
    operators `&`, `|` and `^` are defined bit by bit on natural numbers, the
    shifts by repeated halving and doubling, and the lemmas below relate them
    to division and remainder by powers of two.
 */
module Bits {

  /** Rust `u8`. */
  type u8 = x: int | 0 <= x < 0x100

  /** Rust `u16`. */
  type u16 = x: int | 0 <= x < 0x1_0000

  function Pow2(k: nat): (r: nat)
    ensures r >= 1
  {
    if k == 0 then 1 else 2 * Pow2(k - 1)
  }

  /** `a & b` on unsigned integers. */
  function And(a: nat, b: nat): nat
    decreases a
  {
    if a == 0 || b == 0 then 0
    else 2 * And(a / 2, b / 2) + (if a % 2 == 1 && b % 2 == 1 then 1 else 0)
  }

  /** `a | b` on unsigned integers. */
  function Or(a: nat, b: nat): nat
    decreases a
  {
    if a == 0 then b
    else if b == 0 then a
    else 2 * Or(a / 2, b / 2) + (if a % 2 == 1 || b % 2 == 1 then 1 else 0)
  }

  /** `a ^ b` on unsigned integers. */
  function Xor(a: nat, b: nat): nat
    decreases a
  {
    if a == 0 then b
    else if b == 0 then a
    else 2 * Xor(a / 2, b / 2) + (if a % 2 != b % 2 then 1 else 0)
  }

  /** `a >> k` on an unsigned integer. */
  function ShiftRight(a: nat, k: nat): nat
  {
    if k == 0 then a else ShiftRight(a / 2, k - 1)
  }

  /** `a << k` on an unbounded unsigned integer (no bit is lost). */
  function ShiftLeft(a: nat, k: nat): nat
  {
    if k == 0 then a else 2 * ShiftLeft(a, k - 1)
  }

  /** The `k` lowest bits of `a`. */
  function LowBits(a: nat, k: nat): nat
  {
    if k == 0 then 0 else 2 * LowBits(a / 2, k - 1) + a % 2
  }

  // ---------------------------------------------------------------------------
  // Euclidean division facts.

  lemma MulBound(d: int, x: int)
    requires d > 0 && -d < d * x < d
    ensures x == 0
  {
  }

  /** Euclidean division is determined by its quotient and remainder. */
  lemma DivModUnique(a: int, d: int, q: int, r: int)
    requires d > 0 && 0 <= r < d && a == d * q + r
    ensures a / d == q && a % d == r
  {
    var q0, r0 := a / d, a % d;
    assert a == d * q0 + r0;
    assert d * (q - q0) == r0 - r;
    MulBound(d, q - q0);
  }

  /** Halving once and then dividing by `p` is dividing by `2p`; the remainders agree likewise. */
  lemma DivModHalf(a: nat, p: nat)
    requires p >= 1
    ensures (a / 2) / p == a / (2 * p)
    ensures a % (2 * p) == 2 * ((a / 2) % p) + a % 2
  {
    var q, r := a / (2 * p), a % (2 * p);
    DivModUnique(a, 2 * p, q, r);
    var pq := p * q;
    assert a == 2 * pq + r;
    assert a / 2 == pq + r / 2 && a % 2 == r % 2;
    DivModUnique(a / 2, p, q, r / 2);
  }

  // ---------------------------------------------------------------------------
  // What the shifts and masks compute.

  /** `a >> k` is division by `2^k`, and the `k` low bits are the remainder. */
  lemma {:induction false} ShiftRightIsDiv(a: nat, k: nat)
    ensures ShiftRight(a, k) == a / Pow2(k)
    ensures LowBits(a, k) == a % Pow2(k)
    decreases k
  {
    if k > 0 {
      ShiftRightIsDiv(a / 2, k - 1);
      DivModHalf(a, Pow2(k - 1));
    }
  }

  /** `a << k` multiplies by `2^k`. */
  lemma {:induction false} ShiftLeftIsMul(a: nat, k: nat)
    ensures ShiftLeft(a, k) == a * Pow2(k)
    decreases k
  {
    if k > 0 {
      ShiftLeftIsMul(a, k - 1);
      assert a * Pow2(k) == 2 * (a * Pow2(k - 1));
    }
  }

  /** Shifting left and then right by the same amount gives the value back. */
  lemma {:induction false} ShiftRightLeft(a: nat, k: nat)
    ensures ShiftRight(ShiftLeft(a, k), k) == a
    decreases k
  {
    if k > 0 {
      ShiftRightOfDouble(ShiftLeft(a, k - 1), k - 1);
      ShiftRightLeft(a, k - 1);
    }
  }

  lemma ShiftRightOfDouble(a: nat, k: nat)
    ensures ShiftRight(2 * a, k + 1) == ShiftRight(a, k)
  {
    assert (2 * a) / 2 == a;
  }

  /** Masking with the `k` lowest bits keeps exactly those bits
      (`x & 0x0FFF` keeps bits 0..11, `x & 1` keeps bit 0). */
  lemma {:induction false} AndLowMask(a: nat, k: nat)
    ensures And(a, Pow2(k) - 1) == LowBits(a, k)
    decreases k
  {
    if k > 0 && a > 0 {
      var m := Pow2(k) - 1;
      assert m / 2 == Pow2(k - 1) - 1 && m % 2 == 1;
      AndLowMask(a / 2, k - 1);
    } else if k > 0 {
      LowBitsOfZero(k);
    }
  }

  lemma {:induction false} LowBitsOfZero(k: nat)
    ensures LowBits(0, k) == 0
  {
    if k > 0 {
      LowBitsOfZero(k - 1);
    }
  }

  lemma {:induction false} ShiftRightOfZero(k: nat)
    ensures ShiftRight(0, k) == 0
  {
    if k > 0 {
      ShiftRightOfZero(k - 1);
    }
  }

  lemma {:induction false} ShiftLeftOfZero(k: nat)
    ensures ShiftLeft(0, k) == 0
  {
    if k > 0 {
      ShiftLeftOfZero(k - 1);
    }
  }

  lemma {:induction false} ShiftLeftZeroIsZero(c: nat, k: nat)
    requires ShiftLeft(c, k) == 0
    ensures c == 0
  {
    if k > 0 {
      ShiftLeftZeroIsZero(c, k - 1);
    }
  }

  /** Masking with bits that all lie at position `k` or above:
      `a & (c << k) == ((a >> k) & c) << k`. */
  lemma {:induction false} AndShiftedMask(a: nat, c: nat, k: nat)
    ensures And(a, ShiftLeft(c, k)) == ShiftLeft(And(ShiftRight(a, k), c), k)
    decreases k
  {
    if k > 0 {
      var b := ShiftLeft(c, k);
      assert b % 2 == 0 && b / 2 == ShiftLeft(c, k - 1);
      AndShiftedMask(a / 2, c, k - 1);
      if a == 0 {
        ShiftRightOfZero(k);
        ShiftLeftOfZero(k);
      } else if b == 0 {
        ShiftLeftZeroIsZero(c, k);
        ShiftLeftOfZero(k);
      }
    }
  }

  /** `a & (1 << j)` is `1 << j` or `0` according to bit `j` of `a`. */
  lemma SingleBit(a: nat, j: nat)
    ensures And(a, ShiftLeft(1, j)) == ShiftLeft(ShiftRight(a, j) % 2, j)
  {
    AndShiftedMask(a, 1, j);
    AndLowMask(ShiftRight(a, j), 1);
  }

  lemma {:induction false} AndAtMost(a: nat, b: nat)
    ensures And(a, b) <= a && And(a, b) <= b
    decreases a
  {
    if a != 0 && b != 0 {
      AndAtMost(a / 2, b / 2);
    }
  }

  lemma {:induction false} OrAtLeast(a: nat, b: nat)
    ensures Or(a, b) >= a && Or(a, b) >= b
    decreases a
  {
    if a != 0 && b != 0 {
      OrAtLeast(a / 2, b / 2);
    }
  }

  /** `|` and `^` of two `k`-bit values is a `k`-bit value. */
  lemma {:induction false} OrXorWidth(a: nat, b: nat, k: nat)
    requires a < Pow2(k) && b < Pow2(k)
    ensures Or(a, b) < Pow2(k) && Xor(a, b) < Pow2(k)
    decreases k
  {
    if a != 0 && b != 0 {
      OrXorWidth(a / 2, b / 2, k - 1);
    }
  }

  /** `(a ^ b) ^ b == a`. */
  lemma {:induction false} XorCancel(a: nat, b: nat)
    ensures Xor(Xor(a, b), b) == a
    decreases a
  {
    if a == 0 {
      if b != 0 {
        XorSelf(b);
      }
    } else if b != 0 {
      var x := Xor(a, b);
      XorCancel(a / 2, b / 2);
      if x == 0 {
        XorZero(a / 2, b / 2);
      }
    }
  }

  lemma {:induction false} XorSelf(b: nat)
    ensures Xor(b, b) == 0
    decreases b
  {
    if b != 0 {
      XorSelf(b / 2);
    }
  }

  /** `a ^ b == 0` only when `a == b`. */
  lemma {:induction false} XorZero(a: nat, b: nat)
    requires Xor(a, b) == 0
    ensures a == b
    decreases a
  {
    if a != 0 && b != 0 {
      XorZero(a / 2, b / 2);
    }
  }

  // ---------------------------------------------------------------------------
  // The operators at the widths of the interpreter.

  function And8(a: u8, b: u8): (r: u8)
    ensures r <= a && r <= b
  {
    AndAtMost(a, b);
    And(a, b)
  }

  function Or8(a: u8, b: u8): (r: u8)
    ensures r >= a && r >= b
  {
    OrXorWidth(a, b, 8);
    OrAtLeast(a, b);
    Or(a, b)
  }

  /** `a ^ b`; xoring with `b` again undoes it. */
  function Xor8(a: u8, b: u8): (r: u8)
    ensures Xor(r, b) == a
  {
    OrXorWidth(a, b, 8);
    XorCancel(a, b);
    Xor(a, b)
  }

  /** `a << k` on a `u8`: the bits shifted past bit 7 are dropped. */
  function ShiftLeft8(a: u8, k: nat): (r: u8)
    requires k < 8
    ensures r == (a * Pow2(k)) % 0x100
  {
    ShiftLeftIsMul(a, k);
    ShiftLeft(a, k) % 0x100
  }

  /** `a >> k` on a `u8`. */
  function ShiftRight8(a: u8, k: nat): (r: u8)
    ensures r == a / Pow2(k)
  {
    ShiftRightIsDiv(a, k);
    ShiftRight(a, k)
  }

  /** `a.wrapping_shl(k)` on a `u8`: the shift amount is taken modulo the
      width. */
  function WrappingShl8(a: u8, k: nat): (r: u8)
    ensures k % 8 == 0 ==> r == a
  {
    ShiftLeft8(a, k % 8)
  }

  /** `a.overflowing_add(b)`: the wrapped sum and whether it wrapped. */
  function OverflowingAdd(a: u8, b: u8): (r: (u8, bool))
    ensures r.0 + (if r.1 then 0x100 else 0) == a + b
  {
    ((a as int + b) % 0x100, a as int + b >= 0x100)
  }

  /** `a.overflowing_sub(b)`: the wrapped difference and whether it wrapped. */
  function OverflowingSub(a: u8, b: u8): (r: (u8, bool))
    ensures r.0 == a - b + (if r.1 then 0x100 else 0)
  {
    ((a as int - b) % 0x100, a < b)
  }

  /** Bits below `k` and bits from `k` up do not overlap, so `|` adds them:
      `(a << k) | b == (a << k) + b` when `b < 2^k`. */
  lemma {:induction false} OrShifted(a: nat, b: nat, k: nat)
    requires b < Pow2(k)
    ensures Or(ShiftLeft(a, k), b) == ShiftLeft(a, k) + b
    decreases k
  {
    if k > 0 {
      var h := ShiftLeft(a, k - 1);
      OrShifted(a, b / 2, k - 1);
      if h != 0 && b != 0 {
        assert (2 * h) / 2 == h && (2 * h) % 2 == 0;
      }
    }
  }

  /** `(1 << j) >> k == 1 << (j - k)`. */
  lemma {:induction false} ShiftRightOfBit(j: nat, k: nat)
    requires k <= j
    ensures ShiftRight(ShiftLeft(1, j), k) == ShiftLeft(1, j - k)
    decreases k
  {
    if k > 0 {
      assert ShiftLeft(1, j) / 2 == ShiftLeft(1, j - 1);
      ShiftRightOfBit(j - 1, k - 1);
    }
  }

  // ---------------------------------------------------------------------------
  // The operators bit by bit: an independent definition of `&`, `|` and `^`.

  /** Bit `j` of `a`. */
  function Bit(a: nat, j: nat): (r: nat)
    ensures r <= 1
  {
    if j == 0 then a % 2 else Bit(a / 2, j - 1)
  }

  lemma {:induction false} BitOfZero(j: nat)
    ensures Bit(0, j) == 0
  {
    if j > 0 {
      BitOfZero(j - 1);
    }
  }

  /** Each bit of `a & b` is set exactly when it is set in both. */
  lemma {:induction false} AndBit(a: nat, b: nat, j: nat)
    ensures Bit(And(a, b), j) == Bit(a, j) * Bit(b, j)
    decreases j
  {
    if a == 0 || b == 0 {
      BitOfZero(j);
    } else if j > 0 {
      AndBit(a / 2, b / 2, j - 1);
      assert And(a, b) / 2 == And(a / 2, b / 2);
    }
  }

  /** Each bit of `a | b` is set exactly when it is set in either. */
  lemma {:induction false} OrBit(a: nat, b: nat, j: nat)
    ensures Bit(Or(a, b), j) == (if Bit(a, j) == 1 || Bit(b, j) == 1 then 1 else 0)
    decreases j
  {
    if a == 0 || b == 0 {
      BitOfZero(j);
    } else if j > 0 {
      OrBit(a / 2, b / 2, j - 1);
      assert Or(a, b) / 2 == Or(a / 2, b / 2);
    }
  }

  /** Each bit of `a ^ b` is set exactly when the two bits differ. */
  lemma {:induction false} XorBit(a: nat, b: nat, j: nat)
    ensures Bit(Xor(a, b), j) == (if Bit(a, j) != Bit(b, j) then 1 else 0)
    decreases j
  {
    if a == 0 || b == 0 {
      BitOfZero(j);
    } else if j > 0 {
      XorBit(a / 2, b / 2, j - 1);
      assert Xor(a, b) / 2 == Xor(a / 2, b / 2);
    }
  }

  /** `a & 1` is the lowest bit. */
  lemma AndOne(a: nat)
    ensures And(a, 1) == a % 2
  {
    assert Pow2(1) == 2;
    AndLowMask(a, 1);
    ShiftRightIsDiv(a, 1);
  }

  /** `a & a == a` and `a | a == a`. */
  lemma {:induction false} AndOrSelf(a: nat)
    ensures And(a, a) == a && Or(a, a) == a
    decreases a
  {
    if a != 0 {
      AndOrSelf(a / 2);
    }
  }
}
