/** Machine integers, byte strings and optional values shared by the other modules. */
module Numbers {
  type u16 = x: int | 0 <= x < 0x1_0000

  type byte = x: int | 0 <= x < 0x100
  type Bytes = seq<byte>

  /** A peer. */
  type Addr = nat

  datatype Option<+T> = None | Some(value: T)

  function Min(a: real, b: real): real {
    if a <= b then a else b
  }

  function Abs(a: real): real {
    if a < 0.0 then -a else a
  }

  /** `x * factor^n` */
  function Scaled(x: real, factor: real, n: nat): real {
    if n == 0 then x else Scaled(x, factor, n - 1) * factor
  }

  function Elements<T(==)>(s: seq<T>): set<T> {
    set x | x in s
  }

  ghost predicate Increasing(s: seq<nat>) {
    forall i, j :: 0 <= i < j < |s| ==> s[i] < s[j]
  }

  /** The residue of an unbounded count in sixteen bits. */
  function Wrap16(n: int): u16 {
    n % 0x1_0000
  }
}
