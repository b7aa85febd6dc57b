/** Facts about integer division and multiplication that the index engine relies on. */
module Arith {

  /** Euclidean division is determined by quotient and remainder. */
  lemma DivModUnique(x: int, q: int, r: int, b: int)
    requires b > 0 && 0 <= r < b && x == q * b + r
    ensures x / b == q && x % b == r
  {
    var q', r' := x / b, x % b;
    assert x == q' * b + r';
    assert (q - q') * b == r' - r;
    MulAwayFromZero(q - q', b);
  }

  /** A non-zero multiple of b is at least b away from zero. */
  lemma MulAwayFromZero(k: int, b: nat)
    ensures k >= 1 ==> k * b >= b
    ensures k <= -1 ==> k * b + b <= 0
  {
    if k >= 1 {
      assert k * b - b == (k - 1) * b;
    } else if k <= -1 {
      assert k * b + b == (k + 1) * b;
    }
  }

  /** A digit appended to a quotient stays below the product of the bounds. */
  lemma MulAddBound(q: nat, r: nat, a: nat, b: nat)
    requires q < a && r < b
    ensures q * b + r < a * b
  {
    assert a * b - (q + 1) * b == (a - q - 1) * b;
  }

  /** An index below a * b, divided by b, is below a. */
  lemma QuotientBound(x: nat, a: nat, b: nat)
    requires x < a * b
    ensures b > 0 && x / b < a
  {
    MulAwayFromZero(a, b);
    assert x == (x / b) * b + x % b;
    MulAwayFromZero(x / b - a + 1, b);
    assert (x / b - a + 1) * b == (x / b) * b - a * b + b;
  }

  /** An index below a * b, divided by b, is its own remainder modulo a. */
  lemma QuotientIsDigit(x: nat, a: nat, b: nat)
    requires x < a * b
    ensures a > 0 && b > 0 && x / b >= 0 && (x / b) % a == x / b
  {
    QuotientBound(x, a, b);
    DivModUnique(x / b, 0, x / b, a);
  }

  /** Dividing by a, then by b, is dividing by a * b. */
  lemma DivDiv(x: nat, a: nat, b: nat)
    requires a > 0 && b > 0
    ensures x / a / b == x / (b * a)
  {
    var q, r := x / a, x % a;
    var q2, r2 := q / b, q % b;
    assert x == q * a + r;
    assert q == q2 * b + r2;
    MulAddBound(r2, r, b, a);
    assert x == q2 * (a * b) + (r2 * a + r) by {
      calc {
        x;
        q * a + r;
        (q2 * b + r2) * a + r;
        { assert (q2 * b + r2) * a == q2 * (a * b) + r2 * a; }
        q2 * (a * b) + (r2 * a + r);
      }
    }
    assert b * a == a * b;
    DivModUnique(x, q2, r2 * a + r, b * a);
  }

  /** The same, for a divisor already known to be the product. */
  lemma DivByProduct(x: nat, a: nat, b: nat, n: nat)
    requires a > 0 && b > 0 && n == b * a
    ensures n > 0 && x / a >= 0 && x / a / b == x / n
  {
    DivDiv(x, a, b);
  }

  /** Comparing q1 * b + r1 with q2 * b + r2 for digits below b is lexicographic. */
  lemma MulAddOrder(q1: nat, r1: nat, q2: nat, r2: nat, b: nat)
    requires r1 < b && r2 < b
    ensures q1 * b + r1 < q2 * b + r2 <==> q1 < q2 || (q1 == q2 && r1 < r2)
    ensures q1 * b + r1 == q2 * b + r2 <==> q1 == q2 && r1 == r2
  {
    if q1 < q2 {
      MulAddBound(q1, r1, q2, b);
      assert q2 * b <= q2 * b + r2;
    } else if q2 < q1 {
      MulAddBound(q2, r2, q1, b);
      assert q1 * b <= q1 * b + r1;
    }
  }
}
