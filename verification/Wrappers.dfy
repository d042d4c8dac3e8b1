/** Small definitions shared by every module. */
module Wrappers {
  /** A value that may be absent; stands for NaN slots and null pointers. */
  datatype Option<+T> = None | Some(value: T)

  /** One past the largest value of a 32-bit unsigned number. */
  const WRAP := 0x1_0000_0000

  type Counter = c: nat | c < WRAP

  type Byte = x: int | 0 <= x < 256

  /** Samples per channel in a USB packet. */
  const CHUNK: nat := 256

  function Min(a: int, b: int): int {
    if a <= b then a else b
  }

  /** The quotient rounded up, as `ceil(a / b)` on exact rationals. */
  function CeilDiv(a: nat, b: nat): nat
    requires b > 0
  {
    (a + b - 1) / b
  }

  /** `CeilDiv(a, b)` is the least number of blocks of `b` that cover `a`. */
  lemma CeilDivCovers(a: nat, b: nat)
    requires b > 0
    ensures a <= b * CeilDiv(a, b) < a + b
  {
    var q, r := (a + b - 1) / b, (a + b - 1) % b;
    assert a + b - 1 == b * q + r;
  }

  /** The covering number of blocks is unique. */
  lemma CeilDivUnique(a: nat, b: nat, n: nat)
    requires b > 0 && a <= b * n < a + b
    ensures n == CeilDiv(a, b)
  {
    var c := CeilDiv(a, b);
    CeilDivCovers(a, b);
    assert n + 1 <= c ==> b * (n + 1) <= b * c;
    assert c + 1 <= n ==> b * (c + 1) <= b * n;
  }
}
