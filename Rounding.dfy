/** `Math.round(n / d)` for an integer `n` and a positive integer `d`. */
module Rounding {

  /** JavaScript rounds halves towards positive infinity: `Math.round(x) == floor(x + 1/2)`,
      and for `x == n / d` that is `floor((2n + d) / 2d)`. Dafny's `/` on a positive
      divisor is the floor. */
  function RoundDiv(n: int, d: int): (r: int)
    requires d > 0
    ensures 2 * d * r - d <= 2 * n < 2 * d * r + d
  {
    var q := (2 * n + d) / (2 * d);
    assert 2 * n + d == 2 * d * q + (2 * n + d) % (2 * d);
    q
  }

  /** A positive factor keeps the sign of the other factor. */
  lemma {:induction false} PositiveFactor(d: int, e: int)
    requires d > 0
    ensures d * e < 0 <==> e < 0
  {
    if e < 0 {
      assert d * e == -(d * -e);
      assert d * -e >= d;
    } else {
      assert d * e >= 0;
    }
  }

  /** Only one integer lies within half a step of `n / d`. */
  lemma {:induction false} RoundDivUnique(n: int, d: int, r: int)
    requires d > 0
    requires 2 * d * r - d <= 2 * n < 2 * d * r + d
    ensures r == RoundDiv(n, d)
  {
    var q := RoundDiv(n, d);
    assert (2 * d) * (r - q - 1) == 2 * d * r - 2 * d * q - 2 * d;
    assert (2 * d) * (q - r - 1) == 2 * d * q - 2 * d * r - 2 * d;
    PositiveFactor(2 * d, r - q - 1);
    PositiveFactor(2 * d, q - r - 1);
  }

  /** Rounding keeps a quotient within the bounds of the quotient. */
  lemma {:induction false} RoundDivBounds(n: int, d: int, hi: int)
    requires d > 0 && 0 <= n <= hi * d
    ensures 0 <= RoundDiv(n, d) <= hi
  {
    var r := RoundDiv(n, d);
    assert d * (2 * r + 1) == 2 * d * r + d;
    assert d * (2 * r - 2 * hi - 1) == 2 * d * r - 2 * hi * d - d;
    PositiveFactor(d, -(2 * r + 1));
    PositiveFactor(d, 2 * r - 2 * hi - 1);
  }
}
