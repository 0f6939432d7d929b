/** The integer operations of the host language the control relies on:
    truncating division by two, rounding of an exact half to the nearest
    integer with ties to even, the two-argument min and max, and the range
    of a 32-bit integer. */
module IntMath {

  const Int32Min: int := -0x8000_0000
  const Int32Max: int := 0x7FFF_FFFF

  /** Whether a value can be converted to a 32-bit integer. */
  predicate FitsInt32(n: int) {
    Int32Min <= n <= Int32Max
  }

  function Min(a: int, b: int): (r: int)
    ensures r <= a && r <= b && (r == a || r == b)
  {
    if a <= b then a else b
  }

  function Max(a: int, b: int): (r: int)
    ensures r >= a && r >= b && (r == a || r == b)
  {
    if a >= b then a else b
  }

  function Abs(a: int): (r: int)
    ensures r >= 0 && (r == a || r == -a)
  {
    if a >= 0 then a else -a
  }

  /** Integer division by two that truncates toward zero, as C# `n / 2`
      does; Dafny's own `/` floors for negative operands. */
  function Half(n: int): (r: int)
    ensures n >= 0 ==> 0 <= n - 2 * r <= 1
    ensures n < 0 ==> -1 <= n - 2 * r <= 0
  {
    if n >= 0 then n / 2 else -((-n) / 2)
  }

  /** Converting the exact quotient `n / 2.0` to an integer: the nearest
      integer, and the even one of the two when `n` is odd. */
  function RoundHalf(n: int): (r: int)
    ensures -1 <= 2 * r - n <= 1
    ensures 2 * r - n != 0 ==> r % 2 == 0
  {
    var q := n / 2;
    if n % 2 == 0 || q % 2 == 0 then q else q + 1
  }

  /** The two conditions above determine the rounded value: any integer that
      is within half of `n / 2` and even on a tie is `RoundHalf(n)`. */
  lemma RoundHalfUnique(n: int, k: int)
    requires -1 <= 2 * k - n <= 1
    requires 2 * k - n != 0 ==> k % 2 == 0
    ensures k == RoundHalf(n)
  {
  }

  /** On even sizes the rounding is exact; on odd sizes it is the floor or
      the ceiling of the half, whichever is even. */
  lemma RoundHalfVersusTruncation(n: int)
    requires n >= 0
    ensures n % 2 == 0 ==> RoundHalf(n) == Half(n)
    ensures n % 2 == 1 ==> (RoundHalf(n) == Half(n) <==> Half(n) % 2 == 0)
    ensures n % 2 == 1 ==> (RoundHalf(n) == Half(n) + 1 <==> Half(n) % 2 == 1)
  {
  }
}
