/** Bitwise operations on natural numbers, for masks of any width. */
module Bitwise {
  function Pow2(k: nat): (p: nat)
    ensures p > 0
  {
    if k == 0 then 1 else 2 * Pow2(k - 1)
  }

  /** Bitwise `and` of two naturals. */
  function BitAnd(x: nat, y: nat): nat {
    if x == 0 || y == 0 then 0 else (x % 2) * (y % 2) + 2 * BitAnd(x / 2, y / 2)
  }

  lemma {:induction false} MaskIsModulo(x: nat, k: nat)
    ensures BitAnd(x, Pow2(k) - 1) == x % Pow2(k)
  {
    if x == 0 {
    } else if k > 0 {
      MaskIsModulo(x / 2, k - 1);
      MaskOfDoubled(x, Pow2(k - 1));
    }
  }

  lemma MaskOfDoubled(x: nat, half: nat)
    requires x > 0 && half > 0 && BitAnd(x / 2, half - 1) == (x / 2) % half
    ensures BitAnd(x, 2 * half - 1) == x % (2 * half)
  {
    assert (2 * half - 1) / 2 == half - 1 && (2 * half - 1) % 2 == 1;
    ModuloOfDoubled(x, half);
  }

  lemma ModuloOfDoubled(x: nat, half: nat)
    requires half > 0
    ensures x % (2 * half) == x % 2 + 2 * ((x / 2) % half)
  {
    var q, r := (x / 2) / half, (x / 2) % half;
    assert x == 2 * (x / 2) + x % 2;
    assert x / 2 == half * q + r;
    UniqueRemainder(x, 2 * half, q, x % 2 + 2 * r);
  }

  lemma UniqueRemainder(x: nat, m: nat, q: nat, r: nat)
    requires 0 < m && r < m && x == m * q + r
    ensures x % m == r
  {
    var p := x / m;
    assert m * (p - q) == r - x % m;
    if p - q >= 1 {
      ProductAtLeast(m, p - q);
    } else if q - p >= 1 {
      ProductAtLeast(m, q - p);
    }
  }

  lemma ProductAtLeast(m: nat, k: nat)
    requires k >= 1
    ensures m * k >= m
  {}

  lemma LowestBit(x: nat)
    ensures BitAnd(x, 1) == x % 2
  {
    assert BitAnd(x / 2, 0) == 0;
  }

  /** Bitwise `or` of two naturals. */
  function BitOr(x: nat, y: nat): nat {
    if x == 0 && y == 0 then 0
    else (if x % 2 == 1 || y % 2 == 1 then 1 else 0) + 2 * BitOr(x / 2, y / 2)
  }

  lemma {:induction false} BitOrAlgebra(x: nat, y: nat, z: nat)
    ensures BitOr(x, BitOr(y, z)) == BitOr(y, BitOr(x, z))
    ensures BitOr(x, y) == BitOr(y, x)
    ensures BitOr(x, BitOr(x, z)) == BitOr(x, z)
    ensures BitOr(x, 0) == x
    decreases x + y + z
  {
    if x != 0 || y != 0 || z != 0 {
      BitOrAlgebra(x / 2, y / 2, z / 2);
    }
  }

  /** Bit `k` of a natural. */
  predicate HasBit(x: nat, k: nat) {
    if k == 0 then x % 2 == 1 else HasBit(x / 2, k - 1)
  }

  /** An `or` has exactly the bits of its operands. */
  lemma {:induction false} BitOrExactly(x: nat, y: nat, k: nat)
    ensures HasBit(BitOr(x, y), k) <==> HasBit(x, k) || HasBit(y, k)
  {
    assert BitOr(x, y) / 2 == BitOr(x / 2, y / 2);
    if k > 0 {
      BitOrExactly(x / 2, y / 2, k - 1);
    }
  }

  lemma {:induction false} ZeroHasNoBits(k: nat)
    ensures !HasBit(0, k)
  {
    if k > 0 {
      ZeroHasNoBits(k - 1);
    }
  }

  /** An `or` needs no more bits than its operands. */
  lemma {:induction false} BitOrWidth(x: nat, y: nat, k: nat)
    requires x < Pow2(k) && y < Pow2(k)
    ensures BitOr(x, y) < Pow2(k)
  {
    if k > 0 {
      BitOrWidth(x / 2, y / 2, k - 1);
    }
  }
}
