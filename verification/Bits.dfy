/**
  Bitfields of the wire protocol, read one bit at a time.

  A shift amount is a bit-vector just wide enough to index the word, so counting past the end
  wraps around: `Amount5(32) == 0`. That is how a release build of the source shifts a `u32` by 32.
 */
module Bits {
  /** The shift amount `d`, reduced modulo 32. */
  function Amount5(d: nat): bv5 {
    if d == 0 then 0 else Amount5(d - 1) + 1
  }

  /** The shift amount `d`, reduced modulo 64. */
  function Amount6(d: nat): bv6 {
    if d == 0 then 0 else Amount6(d - 1) + 1
  }

  predicate At32(x: bv32, a: bv5) {
    (x >> a) & 1 == 1
  }

  predicate At64(x: bv64, a: bv6) {
    (x >> a) & 1 == 1
  }

  /** Is bit `d % 32` of `x` set? */
  predicate Bit32(x: bv32, d: nat) {
    At32(x, Amount5(d))
  }

  /** Is bit `d % 64` of `x` set? */
  predicate Bit64(x: bv64, d: nat) {
    At64(x, Amount6(d))
  }

  function ShlAt32(x: bv32, a: bv5): bv32 {
    x << a
  }

  function Shl32(x: bv32, d: nat): bv32 {
    ShlAt32(x, Amount5(d))
  }

  /** `(x << d) | 1`: the window moves up by `d` and its new lowest bit is set. */
  function Advance32(x: bv32, d: nat): bv32 {
    Either32(Shl32(x, d), 1)
  }

  /** `x | (1 << d)` */
  function Mark32(x: bv32, d: nat): bv32 {
    Either32(x, Shl32(1, d))
  }

  function Either32(x: bv32, y: bv32): bv32 {
    x | y
  }

  function ShlAt64(x: bv64, a: bv6): bv64 {
    x << a
  }

  function Shl64(x: bv64, d: nat): bv64 {
    ShlAt64(x, Amount6(d))
  }

  /** `(x << d) | 1`: the window moves up by `d` and its new lowest bit is set. */
  function Advance64(x: bv64, d: nat): bv64 {
    Either64(Shl64(x, d), 1)
  }

  /** `x | (1 << d)` */
  function Mark64(x: bv64, d: nat): bv64 {
    Either64(x, Shl64(1, d))
  }

  function Either64(x: bv64, y: bv64): bv64 {
    x | y
  }

  // ---------- amounts ----------

  lemma {:induction false} Amount5Value(d: nat)
    requires d < 32
    ensures Amount5(d) as int == d
  {
    if d > 0 {
      Amount5Value(d - 1);
    }
  }

  lemma {:induction false} Amount6Value(d: nat)
    requires d < 64
    ensures Amount6(d) as int == d
  {
    if d > 0 {
      Amount6Value(d - 1);
    }
  }

  lemma Amount5NotLast(d: nat)
    requires d < 31
    ensures Amount5(d) != 31
  {
    Amount5Value(d);
    assert (31 as bv5) as int == 31;
  }

  lemma Amount6NotLast(d: nat)
    requires d < 63
    ensures Amount6(d) != 63
  {
    Amount6Value(d);
    assert (63 as bv6) as int == 63;
  }

  lemma Amount5Distinct(c: nat, d: nat)
    requires c < 32 && d < 32 && c != d
    ensures Amount5(c) != Amount5(d)
  {
    Amount5Value(c);
    Amount5Value(d);
  }

  lemma Amount6Distinct(c: nat, d: nat)
    requires c < 64 && d < 64 && c != d
    ensures Amount6(c) != Amount6(d)
  {
    Amount6Value(c);
    Amount6Value(d);
  }

  /** The masked shift: an amount of 32 shifts by nothing. */
  lemma Amount5Wraps()
    ensures Amount5(32) == 0
  {
    Amount5Value(31);
    assert (31 as bv5) as int == 31;
    assert Amount5(31) == 31;
  }

  // ---------- facts about words of 32 bits ----------

  lemma OrAt32(x: bv32, y: bv32, a: bv5)
    ensures At32(Either32(x, y), a) <==> At32(x, a) || At32(y, a)
  {}

  lemma OneAt32(a: bv5, b: bv5)
    ensures At32(ShlAt32(1, a), b) <==> a == b
  {}

  lemma ZeroAt32(a: bv5)
    ensures !At32(0, a)
  {}

  lemma LowAt32(a: bv5)
    ensures At32(1, a) <==> a == 0
  {}

  lemma ShiftOnceMore32(x: bv32, a: bv5)
    requires a != 31
    ensures ShlAt32(x, a + 1) == ShlAt32(x, a) << 1
  {}

  lemma ShiftNone32(x: bv32)
    ensures ShlAt32(x, 0) == x
  {}

  lemma DoubledAt32(y: bv32, b: bv5)
    requires b != 31
    ensures At32(y << 1, b + 1) <==> At32(y, b)
    ensures !At32(y << 1, 0)
  {}

  lemma BitDoubled32(y: bv32, d: nat)
    requires d < 32
    ensures Bit32(y << 1, d) <==> d > 0 && Bit32(y, d - 1)
  {
    if d == 0 {
      DoubledAt32(y, 0);
    } else {
      Amount5NotLast(d - 1);
      DoubledAt32(y, Amount5(d - 1));
    }
  }

  lemma ShlStep32(x: bv32, k: nat)
    requires 0 < k < 32
    ensures Shl32(x, k) == Shl32(x, k - 1) << 1
  {
    Amount5NotLast(k - 1);
    ShiftOnceMore32(x, Amount5(k - 1));
  }

  lemma {:induction false} BitShl32(x: bv32, k: nat, d: nat)
    requires k < 32 && d < 32
    ensures Bit32(Shl32(x, k), d) <==> k <= d && Bit32(x, d - k)
    decreases k
  {
    if k == 0 {
      ShiftNone32(x);
    } else {
      ShlStep32(x, k);
      BitDoubled32(Shl32(x, k - 1), d);
      if d > 0 {
        BitShl32(x, k - 1, d - 1);
      }
    }
  }

  /** What the operations of a window do to bit `d`. */
  lemma BitAt32(x: bv32, k: nat, d: nat)
    requires k < 32 && d < 32
    ensures Bit32(Advance32(x, k), d) <==> d == 0 || (k <= d && Bit32(x, d - k))
    ensures Bit32(Mark32(x, k), d) <==> d == k || Bit32(x, d)
    ensures Bit32(1, d) <==> d == 0
    ensures !Bit32(0, d)
  {
    hide At32, ShlAt32, Either32;
    BitShl32(x, k, d);
    OrAt32(Shl32(x, k), 1, Amount5(d));
    OrAt32(x, Shl32(1, k), Amount5(d));
    ConstantsAt32(k, d);
  }

  lemma ConstantsAt32(k: nat, d: nat)
    requires k < 32 && d < 32
    ensures Bit32(Shl32(1, k), d) <==> k == d
    ensures Bit32(1, d) <==> d == 0
    ensures !Bit32(0, d)
  {
    hide At32, ShlAt32;
    OneAt32(Amount5(k), Amount5(d));
    LowAt32(Amount5(d));
    ZeroAt32(Amount5(d));
    if k != d {
      Amount5Distinct(k, d);
    }
    if d != 0 {
      Amount5Distinct(0, d);
    }
  }

  lemma AllBits32(x: bv32, k: nat)
    requires k < 32
    ensures forall d: nat {:trigger Bit32(Advance32(x, k), d)} | d < 32 ::
              Bit32(Advance32(x, k), d) <==> d == 0 || (k <= d && Bit32(x, d - k))
    ensures forall d: nat {:trigger Bit32(Mark32(x, k), d)} | d < 32 ::
              Bit32(Mark32(x, k), d) <==> d == k || Bit32(x, d)
    ensures forall d: nat | d < 32 :: Bit32(1, d) <==> d == 0
    ensures forall d: nat | d < 32 :: !Bit32(0, d)
  {
    forall d: nat | d < 32
      ensures Bit32(Advance32(x, k), d) <==> d == 0 || (k <= d && Bit32(x, d - k))
    {
      BitAt32(x, k, d);
    }
    forall d: nat | d < 32
      ensures Bit32(Mark32(x, k), d) <==> d == k || Bit32(x, d)
    {
      BitAt32(x, k, d);
    }
    forall d: nat | d < 32
      ensures Bit32(1, d) <==> d == 0
      ensures !Bit32(0, d)
    {
      BitAt32(x, k, d);
    }
  }

  // ---------- facts about words of 64 bits ----------

  lemma OrAt64(x: bv64, y: bv64, a: bv6)
    ensures At64(Either64(x, y), a) <==> At64(x, a) || At64(y, a)
  {}

  lemma OneAt64(a: bv6, b: bv6)
    ensures At64(ShlAt64(1, a), b) <==> a == b
  {}

  lemma ZeroAt64(a: bv6)
    ensures !At64(0, a)
  {}

  lemma LowAt64(a: bv6)
    ensures At64(1, a) <==> a == 0
  {}

  lemma ShiftOnceMore64(x: bv64, a: bv6)
    requires a != 63
    ensures ShlAt64(x, a + 1) == ShlAt64(x, a) << 1
  {}

  lemma ShiftNone64(x: bv64)
    ensures ShlAt64(x, 0) == x
  {}

  lemma DoubledAt64(y: bv64, b: bv6)
    requires b != 63
    ensures At64(y << 1, b + 1) <==> At64(y, b)
    ensures !At64(y << 1, 0)
  {}

  lemma BitDoubled64(y: bv64, d: nat)
    requires d < 64
    ensures Bit64(y << 1, d) <==> d > 0 && Bit64(y, d - 1)
  {
    if d == 0 {
      DoubledAt64(y, 0);
    } else {
      Amount6NotLast(d - 1);
      DoubledAt64(y, Amount6(d - 1));
    }
  }

  lemma ShlStep64(x: bv64, k: nat)
    requires 0 < k < 64
    ensures Shl64(x, k) == Shl64(x, k - 1) << 1
  {
    Amount6NotLast(k - 1);
    ShiftOnceMore64(x, Amount6(k - 1));
  }

  lemma {:induction false} BitShl64(x: bv64, k: nat, d: nat)
    requires k < 64 && d < 64
    ensures Bit64(Shl64(x, k), d) <==> k <= d && Bit64(x, d - k)
    decreases k
  {
    if k == 0 {
      ShiftNone64(x);
    } else {
      ShlStep64(x, k);
      BitDoubled64(Shl64(x, k - 1), d);
      if d > 0 {
        BitShl64(x, k - 1, d - 1);
      }
    }
  }

  lemma BitAt64(x: bv64, k: nat, d: nat)
    requires k < 64 && d < 64
    ensures Bit64(Advance64(x, k), d) <==> d == 0 || (k <= d && Bit64(x, d - k))
    ensures Bit64(Mark64(x, k), d) <==> d == k || Bit64(x, d)
    ensures Bit64(1, d) <==> d == 0
    ensures !Bit64(0, d)
  {
    hide At64, ShlAt64, Either64;
    BitShl64(x, k, d);
    OrAt64(Shl64(x, k), 1, Amount6(d));
    OrAt64(x, Shl64(1, k), Amount6(d));
    ConstantsAt64(k, d);
  }

  lemma ConstantsAt64(k: nat, d: nat)
    requires k < 64 && d < 64
    ensures Bit64(Shl64(1, k), d) <==> k == d
    ensures Bit64(1, d) <==> d == 0
    ensures !Bit64(0, d)
  {
    hide At64, ShlAt64;
    OneAt64(Amount6(k), Amount6(d));
    LowAt64(Amount6(d));
    ZeroAt64(Amount6(d));
    if k != d {
      Amount6Distinct(k, d);
    }
    if d != 0 {
      Amount6Distinct(0, d);
    }
  }

  lemma AllBits64(x: bv64, k: nat)
    requires k < 64
    ensures forall d: nat {:trigger Bit64(Advance64(x, k), d)} | d < 64 ::
              Bit64(Advance64(x, k), d) <==> d == 0 || (k <= d && Bit64(x, d - k))
    ensures forall d: nat {:trigger Bit64(Mark64(x, k), d)} | d < 64 ::
              Bit64(Mark64(x, k), d) <==> d == k || Bit64(x, d)
    ensures forall d: nat | d < 64 :: Bit64(1, d) <==> d == 0
    ensures forall d: nat | d < 64 :: !Bit64(0, d)
  {
    forall d: nat | d < 64
      ensures Bit64(Advance64(x, k), d) <==> d == 0 || (k <= d && Bit64(x, d - k))
    {
      BitAt64(x, k, d);
    }
    forall d: nat | d < 64
      ensures Bit64(Mark64(x, k), d) <==> d == k || Bit64(x, d)
    {
      BitAt64(x, k, d);
    }
    forall d: nat | d < 64
      ensures Bit64(1, d) <==> d == 0
      ensures !Bit64(0, d)
    {
      BitAt64(x, k, d);
    }
  }

}
