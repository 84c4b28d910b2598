/** Go's `int` on the service's 64-bit targets. */
module Integers {

  const MAX_INT: int := 0x7FFF_FFFF_FFFF_FFFF
  const MIN_INT: int := -0x8000_0000_0000_0000
  type Int64 = n: int | MIN_INT <= n <= MAX_INT

  /** `n + 1` with two's-complement wrap-around. */
  function Increment(n: Int64): (r: Int64) {
    if n == MAX_INT then MIN_INT else n + 1
  }

  /** Two's-complement wrap-around of any integer result. */
  function Wrap(n: int): Int64 {
    (n - MIN_INT) % 0x1_0000_0000_0000_0000 + MIN_INT
  }

  /** The one number of 64 bits that differs from `x` by a multiple of 2^64. */
  lemma WrapUnique(x: int, k: int, r: int)
    requires x == k * 0x1_0000_0000_0000_0000 + r && MIN_INT <= r <= MAX_INT
    ensures Wrap(x) == r
  {
    assert x - MIN_INT == k * 0x1_0000_0000_0000_0000 + (r - MIN_INT);
  }

  /** How many times 2^64 the wrapping takes away. */
  lemma WrapTakes(x: int) returns (k: int)
    ensures x == k * 0x1_0000_0000_0000_0000 + Wrap(x)
  {
    k := (x - MIN_INT) / 0x1_0000_0000_0000_0000;
  }

  /** A sum can be wrapped as it is computed or at the end. */
  lemma WrapSum(x: int, y: int)
    ensures Wrap(Wrap(x) + y) == Wrap(x + y)
  {
    var k := WrapTakes(x);
    var m := WrapTakes(Wrap(x) + y);
    WrapUnique(x + y, k + m, Wrap(Wrap(x) + y));
  }
}
