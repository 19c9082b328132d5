/** Bitwise operations on unsigned machine words, modelled as natural numbers.

    `Bit(x, j)` is bit `j` of `x`, bit 0 being the least significant. Every other operation is
    characterised by its bits, and a number below `Pow2(n)` is determined by its low `n` bits. */
module Bits {

  function Pow2(n: nat): (r: nat)
    ensures r >= 1
  {
    if n == 0 then 1 else 2 * Pow2(n - 1)
  }

  predicate Bit(x: nat, j: nat) {
    if j == 0 then x % 2 == 1 else Bit(x / 2, j - 1)
  }

  function And(x: nat, y: nat): nat {
    if x == 0 || y == 0 then 0
    else 2 * And(x / 2, y / 2) + (if x % 2 == 1 && y % 2 == 1 then 1 else 0)
  }

  function Or(x: nat, y: nat): nat {
    if x == 0 then y
    else if y == 0 then x
    else 2 * Or(x / 2, y / 2) + (if x % 2 == 1 || y % 2 == 1 then 1 else 0)
  }

  function Shl(x: nat, n: nat): nat {
    if n == 0 then x else 2 * Shl(x, n - 1)
  }

  function Shr(x: nat, n: nat): nat {
    if n == 0 then x else Shr(x / 2, n - 1)
  }

  /** The complement `~x` in an `n`-bit word. */
  function Not(x: nat, n: nat): nat
    requires x < Pow2(n)
  {
    Pow2(n) - 1 - x
  }

  /** The number whose low `n` bits are those of `x`. */
  function Low(x: nat, n: nat): nat {
    if n == 0 then 0 else 2 * Low(x / 2, n - 1) + x % 2
  }

  lemma {:induction false} BitOfZero(j: nat)
    ensures !Bit(0, j)
  {
    if j > 0 { BitOfZero(j - 1); }
  }

  lemma {:induction false} BitOfPower(i: nat, j: nat)
    ensures Bit(Pow2(i), j) <==> i == j
  {
    if i == 0 {
      if j > 0 { BitOfZero(j - 1); }
    } else if j > 0 {
      BitOfPower(i - 1, j - 1);
      assert Pow2(i) / 2 == Pow2(i - 1);
    }
  }

  lemma {:induction false} BitAnd(x: nat, y: nat, j: nat)
    ensures Bit(And(x, y), j) <==> Bit(x, j) && Bit(y, j)
  {
    BitOfZero(j);
    if x != 0 && y != 0 && j > 0 {
      BitAnd(x / 2, y / 2, j - 1);
      assert And(x, y) / 2 == And(x / 2, y / 2);
    }
  }

  lemma {:induction false} BitOr(x: nat, y: nat, j: nat)
    ensures Bit(Or(x, y), j) <==> Bit(x, j) || Bit(y, j)
  {
    BitOfZero(j);
    if x != 0 && y != 0 && j > 0 {
      BitOr(x / 2, y / 2, j - 1);
      assert Or(x, y) / 2 == Or(x / 2, y / 2);
    }
  }

  lemma {:induction false} BitShl(x: nat, n: nat, j: nat)
    ensures Bit(Shl(x, n), j) <==> j >= n && Bit(x, j - n)
  {
    if n > 0 && j > 0 { BitShl(x, n - 1, j - 1); }
  }

  lemma {:induction false} BitShr(x: nat, n: nat, j: nat)
    ensures Bit(Shr(x, n), j) <==> Bit(x, j + n)
  {
    if n > 0 { BitShr(x / 2, n - 1, j); }
  }

  lemma {:induction false} BitOnes(n: nat, j: nat)
    ensures Bit(Pow2(n) - 1, j) <==> j < n
  {
    if n == 0 {
      BitOfZero(j);
    } else if j > 0 {
      BitOnes(n - 1, j - 1);
      assert (Pow2(n) - 1) / 2 == Pow2(n - 1) - 1;
    }
  }

  lemma {:induction false} BitNot(x: nat, n: nat, j: nat)
    requires x < Pow2(n)
    ensures Bit(Not(x, n), j) <==> j < n && !Bit(x, j)
  {
    if n == 0 {
      BitOfZero(j);
    } else if j > 0 {
      BitNot(x / 2, n - 1, j - 1);
      assert Not(x, n) / 2 == Not(x / 2, n - 1);
    }
  }

  lemma {:induction false} BitLow(x: nat, n: nat, j: nat)
    ensures Bit(Low(x, n), j) <==> j < n && Bit(x, j)
  {
    if n == 0 {
      BitOfZero(j);
    } else if j > 0 {
      BitLow(x / 2, n - 1, j - 1);
    }
  }

  /** A number below `Pow2(n)` has no bits from `n` up. */
  lemma {:induction false} BitHigh(x: nat, n: nat, j: nat)
    requires x < Pow2(n) && n <= j
    ensures !Bit(x, j)
  {
    if n == 0 {
      BitOfZero(j);
    } else {
      BitHigh(x / 2, n - 1, j - 1);
    }
  }

  /** Bits of a concatenation: `lo` below `Pow2(n)` under `hi`. */
  lemma {:induction false} BitConcat(hi: nat, lo: nat, n: nat, j: nat)
    requires lo < Pow2(n)
    ensures Bit(Shl(hi, n) + lo, j) <==> if j < n then Bit(lo, j) else Bit(hi, j - n)
  {
    if n > 0 && j > 0 {
      BitConcat(hi, lo / 2, n - 1, j - 1);
      assert (Shl(hi, n) + lo) / 2 == Shl(hi, n - 1) + lo / 2;
    }
  }

  /** Numbers below `Pow2(n)` with the same low `n` bits are equal. */
  lemma {:induction false} SameBits(x: nat, y: nat, n: nat)
    requires x < Pow2(n) && y < Pow2(n)
    requires forall j: nat | j < n :: Bit(x, j) <==> Bit(y, j)
    ensures x == y
  {
    if n > 0 {
      assert Bit(x, 0) <==> Bit(y, 0);
      forall j: nat | j < n - 1 ensures Bit(x / 2, j) <==> Bit(y / 2, j) {
        assert Bit(x, j + 1) <==> Bit(y, j + 1);
      }
      SameBits(x / 2, y / 2, n - 1);
    }
  }

  lemma {:induction false} AndBound(x: nat, y: nat)
    ensures And(x, y) <= x && And(x, y) <= y
  {
    if x != 0 && y != 0 { AndBound(x / 2, y / 2); }
  }

  lemma {:induction false} OrBound(x: nat, y: nat, n: nat)
    requires x < Pow2(n) && y < Pow2(n)
    ensures Or(x, y) < Pow2(n)
  {
    if x != 0 && y != 0 && n > 0 { OrBound(x / 2, y / 2, n - 1); }
  }

  lemma {:induction false} ShlBound(x: nat, m: nat, n: nat)
    requires x < Pow2(m)
    ensures Shl(x, n) < Pow2(m + n)
  {
    if n > 0 { ShlBound(x, m, n - 1); }
  }

  lemma {:induction false} LowBound(x: nat, n: nat)
    ensures Low(x, n) < Pow2(n)
  {
    if n > 0 { LowBound(x / 2, n - 1); }
  }

  lemma {:induction false} ShlIsMul(x: nat, n: nat)
    ensures Shl(x, n) == x * Pow2(n)
  {
    if n > 0 { ShlIsMul(x, n - 1); }
  }

  lemma {:induction false} ShrIsDiv(x: nat, n: nat)
    ensures Shr(x, n) == x / Pow2(n)
  {
    if n > 0 {
      ShrIsDiv(x / 2, n - 1);
      DivTwice(x, Pow2(n - 1));
    }
  }

  lemma DivTwice(x: nat, p: nat)
    requires p >= 1
    ensures x / 2 / p == x / (2 * p)
    ensures x % (2 * p) == 2 * (x / 2 % p) + x % 2
  {
    var q, r := x / 2 / p, x / 2 % p;
    assert x / 2 == p * q + r;
    assert x == (2 * p) * q + (2 * r + x % 2);
    DivModUnique(x, 2 * p, q, 2 * r + x % 2);
  }

  lemma {:induction false} MulAtLeast(d: nat, a: nat, b: nat)
    requires a < b
    ensures d * a + d <= d * b
    decreases b
  {
    assert d * b == d * (b - 1) + d;
    if a < b - 1 { MulAtLeast(d, a, b - 1); }
  }

  lemma DivModUnique(x: nat, d: nat, q: nat, r: nat)
    requires d > 0 && r < d && x == d * q + r
    ensures x / d == q && x % d == r
  {
    var q' := x / d;
    if q < q' {
      MulAtLeast(d, q, q');
    } else if q' < q {
      MulAtLeast(d, q', q);
    }
  }

  lemma ModSmall(x: nat, d: nat)
    requires x < d
    ensures x % d == x
  {
  }

  /** Reducing to the low `n` bits is reduction modulo `Pow2(n)`. */
  lemma {:induction false} LowIsMod(x: nat, n: nat)
    ensures Low(x, n) == x % Pow2(n)
  {
    if n > 0 {
      LowIsMod(x / 2, n - 1);
      DivTwice(x, Pow2(n - 1));
    }
  }

  lemma {:induction false} Pow2Sum(m: nat, n: nat)
    ensures Pow2(m + n) == Pow2(m) * Pow2(n)
  {
    if n > 0 { Pow2Sum(m, n - 1); }
  }

  lemma {:induction false} Pow2Monotonic(m: nat, n: nat)
    requires m <= n
    ensures Pow2(m) <= Pow2(n)
    ensures m < n ==> Pow2(m) < Pow2(n)
  {
    if m < n { Pow2Monotonic(m, n - 1); }
  }

  lemma Pow2Values()
    ensures Pow2(1) == 2 && Pow2(2) == 4 && Pow2(3) == 8 && Pow2(4) == 16 && Pow2(5) == 32
    ensures Pow2(6) == 64 && Pow2(8) == 0x100 && Pow2(12) == 0x1000 && Pow2(16) == 0x1_0000
    ensures Pow2(24) == 0x100_0000 && Pow2(30) == 0x4000_0000 && Pow2(31) == 0x8000_0000
    ensures Pow2(32) == 0x1_0000_0000 && Pow2(64) == 0x1_0000_0000_0000_0000
  {
    assert Pow2(4) == 16 && Pow2(5) == 32 && Pow2(6) == 64 && Pow2(7) == 128 && Pow2(8) == 0x100;
    Pow2Sum(8, 4);
    Pow2Sum(8, 8);
    Pow2Sum(16, 8);
    Pow2Sum(24, 6);
    Pow2Sum(16, 16);
    Pow2Sum(32, 32);
  }

  /* ---------------------------------------------------------------- rounding up by masking */

  /** `(x + p - 1) & ~(p - 1)` for `p == Pow2(k)` in an `n`-bit word. */
  function AlignUp(x: nat, k: nat, n: nat): nat
    requires k <= n && x + Pow2(k) - 1 < Pow2(n)
  {
    Pow2Monotonic(k, n);
    And(x + Pow2(k) - 1, Not(Pow2(k) - 1, n))
  }

  lemma ClearLow(y: nat, k: nat, n: nat)
    requires k <= n && y < Pow2(n)
    ensures Pow2(k) - 1 < Pow2(n)
    ensures And(y, Not(Pow2(k) - 1, n)) == Shl(Shr(y, k), k)
  {
    hide Bit; hide And; hide Shl; hide Shr; hide Pow2;
    Pow2Monotonic(k, n);
    var m := Not(Pow2(k) - 1, n);
    var a, b := And(y, m), Shl(Shr(y, k), k);
    AndBound(y, m);
    ShrShlBound(y, k);
    forall j: nat | j < n ensures Bit(a, j) <==> Bit(b, j) {
      BitAnd(y, m, j);
      BitNot(Pow2(k) - 1, n, j);
      BitOnes(k, j);
      BitShl(Shr(y, k), k, j);
      if j >= k { BitShr(y, k, j - k); }
    }
    SameBits(a, b, n);
  }

  lemma {:induction false} ShrShlBound(y: nat, k: nat)
    ensures Shl(Shr(y, k), k) <= y < Shl(Shr(y, k), k) + Pow2(k)
  {
    if k > 0 { ShrShlBound(y / 2, k - 1); }
  }

  /** Masking rounds up to the least multiple of the power of two that is not below `x`. */
  lemma AlignUpIsLeast(x: nat, k: nat, n: nat)
    requires k <= n && x + Pow2(k) - 1 < Pow2(n)
    ensures AlignUp(x, k, n) == Shr(x + Pow2(k) - 1, k) * Pow2(k)
    ensures x <= AlignUp(x, k, n) < x + Pow2(k)
    ensures AlignUp(x, k, n) % Pow2(k) == 0
    ensures forall q: nat | x <= q * Pow2(k) :: AlignUp(x, k, n) <= q * Pow2(k)
  {
    hide Shl; hide Shr; hide And; hide Pow2;
    var y, p := x + Pow2(k) - 1, Pow2(k);
    var c := Shr(y, k);
    ClearLow(y, k, n);
    ShrShlBound(y, k);
    ShlIsMul(c, k);
    DivModUnique(c * p, p, c, 0);
    forall q: nat | x <= q * p ensures c * p <= q * p {
      if q < c { MulAtLeast(p, q, c); }
    }
  }

  /** A word has a bit in common with a power of two exactly when it has that bit. */
  lemma AndPower(x: nat, i: nat)
    ensures And(x, Pow2(i)) != 0 <==> Bit(x, i)
  {
    hide And; hide Pow2; hide Bit;
    BitAnd(x, Pow2(i), i);
    BitOfPower(i, i);
    if Bit(x, i) {
      BitOfZero(i);
    } else {
      var y := And(x, Pow2(i));
      AndBound(x, Pow2(i));
      Pow2Monotonic(i, i + 1);
      forall k: nat | k < i + 1 ensures Bit(y, k) <==> Bit(0, k) {
        BitAnd(x, Pow2(i), k);
        BitOfPower(i, k);
        BitOfZero(k);
      }
      NextPower(i);
      SameBits(y, 0, i + 1);
    }
  }

  lemma NextPower(i: nat)
    ensures 0 < Pow2(i) < Pow2(i + 1)
  {
  }
}
