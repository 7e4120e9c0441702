/**
 * Python's `round` on the quotients the reporter rounds, computed exactly on
 * integers: `round(n / d)` and `round(part / whole * 100, 1)`.
 */
module Rounding {

  /** Multiplying by a positive `d` moves `q` away from zero. */
  lemma {:induction false} ScaleBounds(q: int, d: int)
    requires d >= 1
    ensures q >= 0 ==> q * d >= q
    ensures q <= 0 ==> q * d <= 0
    decreases d
  {
    if d > 1 {
      ScaleBounds(q, d - 1);
      assert q * d == q * (d - 1) + q;
    }
  }
  lemma Distribute(x: int, y: int, d: int)
    ensures x * d - y * d == (x - y) * d
    ensures (x + 1) * d == x * d + d
  {}
  /** The two integers around `n / d` and their distance to it. */
  lemma DivisionFacts(n: int, d: int)
    requires d >= 1
    ensures n - (n / d) * d == n % d
    ensures n - (n / d + 1) * d == n % d - d
    ensures 0 <= n ==> 0 <= n / d <= n
    ensures 0 <= n && 2 * (n % d) >= d ==> n / d + 1 <= n
  {
    var q, rem := n / d, n % d;
    assert n == q * d + rem && 0 <= rem < d;
    Distribute(q, 0, d);
    ScaleBounds(q, d);
    ScaleBounds(q + 1, d);
    if 0 <= n && 2 * rem >= d {
      ScaleBounds(q, d - 1);
      Distribute(q, 0, d - 1);
    }
  }
  /** Python's `round(n / d)` for integers: the nearest integer, ties to even. */
  function RoundHalfEven(n: int, d: int): (r: int)
    requires d >= 1
    ensures 2 * (n - r * d) <= d && 2 * (r * d - n) <= d
    ensures (2 * (n - r * d) == d || 2 * (r * d - n) == d) ==> r % 2 == 0
    ensures 0 <= n ==> 0 <= r <= n
  {
    DivisionFacts(n, d);
    var q := n / d;
    var rem := n % d;
    if 2 * rem < d then q
    else if 2 * rem > d then q + 1
    else if q % 2 == 0 then q
    else q + 1
  }
  /** `k * d / d` rounds to `k`. */
  lemma RoundExact(k: int, d: int)
    requires d >= 1
    ensures RoundHalfEven(k * d, d) == k
  {
    var r := RoundHalfEven(k * d, d);
    if r < k {
      Distribute(k, r, d);
      Distribute(k - r - 1, 0, d);
      ScaleBounds(k - r - 1, d);
      assert false;
    } else if r > k {
      Distribute(r, k, d);
      Distribute(r - k - 1, 0, d);
      ScaleBounds(r - k - 1, d);
      assert false;
    }
  }
  /** Rounding does not reverse the order of numerators. */
  lemma RoundMonotone(m: int, n: int, d: int)
    requires d >= 1 && m <= n
    ensures RoundHalfEven(m, d) <= RoundHalfEven(n, d)
  {
    if m < n {
      var p, q := RoundHalfEven(m, d), RoundHalfEven(n, d);
      if p > q {
        Distribute(p, q, d);
        Distribute(p - q - 1, 0, d);
        ScaleBounds(p - q - 1, d);
        assert false;
      }
    }
  }

  /**
   * `round(part / whole * 100, 1)` in tenths of a percent, computed exactly:
   * 1000 * part / whole rounded to the nearest integer, ties to even.
   */
  function PercentTenths(part: nat, whole: nat): (p: int)
    requires whole >= 1
    ensures p >= 0
  {
    RoundHalfEven(1000 * part, whole)
  }

  /** A share of a whole lies between 0 and 100.0 percent and is 100.0 for the whole. */
  lemma PercentBounds(part: nat, whole: nat)
    requires whole >= 1
    ensures part <= whole ==> 0 <= PercentTenths(part, whole) <= 1000
    ensures part == whole ==> PercentTenths(part, whole) == 1000
  {
    if part <= whole {
      RoundMonotone(1000 * part, 1000 * whole, whole);
      RoundExact(1000, whole);
    }
  }
}
