/**
 * Java's 32-bit `int`: its range, `++` with two's-complement wrap-around, and the
 * remainder operator `%`, which truncates toward zero.
 */
module JavaInt {

  const MinInt: int := -0x8000_0000
  const MaxInt: int := 0x7fff_ffff

  predicate IsInt32(n: int) {
    MinInt <= n <= MaxInt
  }

  /** `n + 1` on a Java int: the largest value wraps to the smallest. */
  function Inc(n: int): (r: int)
    requires IsInt32(n)
    ensures IsInt32(r)
    ensures n < MaxInt ==> r == n + 1
    ensures n == MaxInt ==> r == MinInt
  {
    if n == MaxInt then MinInt else n + 1
  }

  /**
   * Java's `a % b` for a positive divisor: the remainder takes the sign of the dividend,
   * where Dafny's `%` is never negative.
   */
  function Rem(a: int, b: int): (r: int)
    requires b > 0
    ensures a >= 0 ==> r == a % b
    ensures a < 0 ==> r == -((-a) % b)
    ensures -b < r < b
  {
    if a >= 0 then a % b else -((-a) % b)
  }

  /** The two remainders differ on negative dividends: Java gives -1 for -8 % 7, Dafny 6. */
  lemma RemTruncates()
    ensures Rem(-8, 7) == -1 && -8 % 7 == 6
  {
  }
}
