/** Packed little-endian layouts of the packets. */
module Packet {
  import opened Bitwise
  import opened Numbers
  import opened Protocol

  const RELIABLE: byte := 1
  const DISCONNECT: byte := 2
  const SNAPSHOT: byte := 3
  const INPUT: byte := 4

  const GENERAL_SIZE := 1
  const RELIABILITY_SIZE := 8
  const NONCE_SIZE := 8
  const KEY_SIZE := 32

  // ---------- numbers ----------

  function Range(width: nat): (r: nat)
    ensures r > 0
  {
    if width == 0 then 1 else 0x100 * Range(width - 1)
  }

  /** The `width` low bytes of `n`, least significant first. */
  function ToBytes(n: nat, width: nat): (b: Bytes)
    ensures |b| == width
  {
    if width == 0 then [] else [n % 0x100] + ToBytes(n / 0x100, width - 1)
  }

  function FromBytes(b: Bytes): (n: nat) {
    if b == [] then 0 else b[0] + 0x100 * FromBytes(b[1..])
  }

  lemma {:induction false} NumberRoundTrip(n: nat, width: nat)
    requires n < Range(width)
    ensures FromBytes(ToBytes(n, width)) == n
  {
    if width > 0 {
      NumberRoundTrip(n / 0x100, width - 1);
      assert ToBytes(n, width)[1..] == ToBytes(n / 0x100, width - 1);
    }
  }

  lemma OneDigit(low: byte, high: nat, bound: nat)
    requires high < bound
    ensures low + 0x100 * high < 0x100 * bound
    ensures (low + 0x100 * high) % 0x100 == low && (low + 0x100 * high) / 0x100 == high
  {}

  lemma {:induction false} BytesRoundTrip(b: Bytes)
    ensures FromBytes(b) < Range(|b|)
    ensures ToBytes(FromBytes(b), |b|) == b
  {
    if b != [] {
      BytesRoundTrip(b[1..]);
      OneDigit(b[0], FromBytes(b[1..]), Range(|b| - 1));
      assert b == [b[0]] + b[1..];
    }
  }

  /** Byte `i` of a number is its digit of weight `256^i`. */
  lemma {:induction false} LittleEndian(n: nat, width: nat, i: nat)
    requires i < width
    ensures ToBytes(n, width)[i] == (n / Range(i)) % 0x100
  {
    if i > 0 {
      LittleEndian(n / 0x100, width - 1, i - 1);
      DivideTwice(n, Range(i - 1));
    }
  }

  lemma DivideTwice(n: nat, r: nat)
    requires r > 0
    ensures (n / 0x100) / r == n / (0x100 * r)
  {
    var q, rest := (n / 0x100) / r, (n / 0x100) % r;
    assert n == 0x100 * (q * r + rest) + n % 0x100;
    assert n == q * (0x100 * r) + (0x100 * rest + n % 0x100);
    assert 0 <= 0x100 * rest + n % 0x100 < 0x100 * r;
    QuotientIs(n, 0x100 * r, q, 0x100 * rest + n % 0x100);
  }

  lemma QuotientIs(n: nat, m: nat, q: nat, r: nat)
    requires m > 0 && r < m && n == q * m + r
    ensures n / m == q
  {
    var p := n / m;
    assert m * (p - q) == r - n % m;
    if p - q >= 1 {
      ProductAtLeast(m, p - q);
    } else if q - p >= 1 {
      ProductAtLeast(m, q - p);
    }
  }

  lemma Ranges()
    ensures Range(2) == 0x1_0000
    ensures Range(4) == 0x1_0000_0000
    ensures Range(8) == 0x1_0000_0000_0000_0000
  {
    assert Range(3) == 0x100_0000;
    assert Range(7) == 0x100_0000_0000_0000;
  }

  type i32 = x: int | -0x8000_0000 <= x < 0x8000_0000

  /** Two's complement. */
  function SignedToBytes(x: i32): (b: Bytes)
    ensures |b| == 4
  {
    ToBytes(x % 0x1_0000_0000, 4)
  }

  function SignedFromBytes(b: Bytes): int
    requires |b| == 4
  {
    var n := FromBytes(b);
    if n < 0x8000_0000 then n else n - 0x1_0000_0000
  }

  lemma SignedRoundTrip(x: i32)
    ensures SignedFromBytes(SignedToBytes(x)) == x
  {
    Ranges();
    NumberRoundTrip(x % 0x1_0000_0000, 4);
  }

  function BitsToNumber(bits: bv32): (n: nat)
    ensures n < 0x1_0000_0000
  {
    bits as int
  }

  function NumberToBits(n: nat): bv32
    requires n < 0x1_0000_0000
  {
    n as bv32
  }

  lemma BitsRoundTrip(bits: bv32)
    ensures NumberToBits(BitsToNumber(bits)) == bits
  {}

  // ---------- headers ----------

  function EncodeHeader(h: Header): (b: Bytes)
    ensures |b| == RELIABILITY_SIZE
  {
    ToBytes(h.sequence, 2) + ToBytes(h.ack, 2) + ToBytes(BitsToNumber(h.ackBits), 4)
  }

  /** Sequence, acknowledged sequence and bits follow each other, low bytes first. */
  lemma HeaderLayout(h: Header)
    ensures var b := EncodeHeader(h);
            && (forall i: nat | i < 2 :: b[i] == (h.sequence / Range(i)) % 0x100)
            && (forall i: nat | i < 2 :: b[2 + i] == (h.ack / Range(i)) % 0x100)
            && (forall i: nat | i < 4 :: b[4 + i] == (BitsToNumber(h.ackBits) / Range(i)) % 0x100)
  {
    hide BitsToNumber, ToBytes, Range;
    forall i: nat | i < 2
      ensures EncodeHeader(h)[i] == (h.sequence / Range(i)) % 0x100
      ensures EncodeHeader(h)[2 + i] == (h.ack / Range(i)) % 0x100
    {
      LittleEndian(h.sequence, 2, i);
      LittleEndian(h.ack, 2, i);
    }
    forall i: nat | i < 4
      ensures EncodeHeader(h)[4 + i] == (BitsToNumber(h.ackBits) / Range(i)) % 0x100
    {
      LittleEndian(BitsToNumber(h.ackBits), 4, i);
    }
  }

  function U16At(b: Bytes, i: nat): u16
    requires i + 2 <= |b|
  {
    BytesRoundTrip(b[i..i + 2]);
    Ranges();
    FromBytes(b[i..i + 2])
  }

  function U32At(b: Bytes, i: nat): (n: nat)
    requires i + 4 <= |b|
    ensures n < 0x1_0000_0000
  {
    BytesRoundTrip(b[i..i + 4]);
    Ranges();
    FromBytes(b[i..i + 4])
  }

  function U64At(b: Bytes, i: nat): (n: nat)
    requires i + 8 <= |b|
    ensures n < 0x1_0000_0000_0000_0000
  {
    BytesRoundTrip(b[i..i + 8]);
    Ranges();
    FromBytes(b[i..i + 8])
  }

  function DecodeHeader(b: Bytes): Header
    requires |b| >= RELIABILITY_SIZE
  {
    Header(U16At(b, 0), U16At(b, 2), NumberToBits(U32At(b, 4)))
  }

  lemma HeaderRoundTrip(h: Header, rest: Bytes)
    ensures DecodeHeader(EncodeHeader(h) + rest) == h
  {
    HeaderFields(h, rest);
    BitsRoundTrip(h.ackBits);
  }

  lemma HeaderFields(h: Header, rest: Bytes)
    ensures var b := EncodeHeader(h) + rest;
            U16At(b, 0) == h.sequence && U16At(b, 2) == h.ack && U32At(b, 4) == BitsToNumber(h.ackBits)
  {
    Ranges();
    var b := EncodeHeader(h) + rest;
    assert b[0..2] == ToBytes(h.sequence, 2);
    assert b[2..4] == ToBytes(h.ack, 2);
    assert b[4..8] == ToBytes(BitsToNumber(h.ackBits), 4);
    NumberRoundTrip(h.sequence, 2);
    NumberRoundTrip(h.ack, 2);
    NumberRoundTrip(BitsToNumber(h.ackBits), 4);
  }
}
