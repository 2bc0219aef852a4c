/** `Math.round` of a quotient of integers, as the pages use it for
    percentages and averages. */
module Rounding {
  /** `Math.round(a / b)` for integers: the quotient rounded to the nearest
      integer, halves rounding up. */
  function RoundDiv(a: int, b: int): (r: int)
    requires b > 0
    ensures 2 * a - b < 2 * b * r <= 2 * a + b
  {
    (2 * a + b) / (2 * b)
  }

  /** Rounding is exact on whole quotients. */
  lemma RoundDivExact(q: int, b: int)
    requires b > 0
    ensures RoundDiv(q * b, b) == q
  {
    assert 2 * (q * b) + b == q * (2 * b) + b;
    DivOfRemainder(2 * (q * b) + b, 2 * b, q, b);
  }

  /** A mean of values between 0 and `m` rounds to a value between 0 and `m`. */
  lemma RoundDivBounds(a: int, b: int, m: nat)
    requires b > 0 && 0 <= a <= m * b
    ensures 0 <= RoundDiv(a, b) <= m
  {
    var q := RoundDiv(a, b);
    var r := (2 * a + b) % (2 * b);
    assert 2 * a + b == q * (2 * b) + r;
    assert 2 * a + b < (m + 1) * (2 * b) by {
      assert 2 * a <= 2 * m * b;
      assert (m + 1) * (2 * b) == 2 * m * b + 2 * b;
    }
    if q > m {
      assert q * (2 * b) >= (m + 1) * (2 * b) by {
        MulMonotone(m + 1, q, 2 * b);
      }
    }
  }

  lemma DivOfRemainder(n: int, d: int, q: int, r: int)
    requires d > 0 && 0 <= r < d && n == q * d + r
    ensures n / d == q
  {
    var q', r' := n / d, n % d;
    assert (q - q') * d == r' - r;
    if q' < q {
      MulMonotone(1, q - q', d);
    } else if q < q' {
      MulMonotone(1, q' - q, d);
    }
  }

  lemma MulMonotone(x: int, y: int, d: nat)
    requires x <= y
    ensures x * d <= y * d
  {
  }
}
