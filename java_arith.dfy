/**
 * Java integer arithmetic that differs from Dafny's: division truncates toward
 * zero (BigInteger.divide and long `/`), and `int` is 32 bits wide.
 */
module JavaArith {

  const INT_MIN: int := -0x8000_0000
  const INT_MAX: int := 0x7fff_ffff

  predicate IsInt32(x: int)
  {
    INT_MIN <= x <= INT_MAX
  }

  function Abs(x: int): (r: int)
    ensures r >= 0 && (r == x || r == -x)
  {
    if x < 0 then -x else x
  }

  /** Division rounding toward zero, as Java's `/` and BigInteger.divide do. */
  function TruncDiv(a: int, b: int): (q: int)
    requires b > 0
    ensures 0 <= a ==> 0 <= a - q * b < b
    ensures a < 0 ==> -b < a - q * b <= 0
  {
    if a >= 0 then a / b else -((-a) / b)
  }

  /** Truncating division is odd: the quotient of a negated dividend is the negated quotient. */
  lemma TruncDivOdd(a: int, b: int)
    requires b > 0
    ensures TruncDiv(-a, b) == -TruncDiv(a, b)
  {
  }

  /** On non-negative dividends truncation agrees with Dafny's Euclidean division. */
  lemma TruncDivNonNegative(a: int, b: int)
    requires a >= 0 && b > 0
    ensures TruncDiv(a, b) == a / b
  {
  }

  /** Where the two divisions part: a negative dividend rounds toward zero, not down. */
  lemma TruncDivDiffersFromEuclidean()
    ensures TruncDiv(-1, 1000) == 0 && -1 / 1000 == -1
  {
  }
}
