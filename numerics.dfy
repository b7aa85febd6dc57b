/**
 * Real arithmetic shared by every stimulus: the transcendental functions the
 * formulas call (kept uninterpreted), absolute values, and the reductions over
 * a flat image that numpy performs (`min`, `max`, largest magnitude).
 */
module Numerics {

  /** numpy.pi, as printed by Python. */
  const PI: real := 3.141592653589793

  /**
   * The elementary functions numpy evaluates. Their values are not modelled;
   * every formula receives them through this record, so any statement proved
   * about a stimulus holds for every choice of them unless a lemma says which
   * facts it relies on.
   */
  datatype Math = Math(cos: real -> real, sin: real -> real, exp: real -> real, sqrt: real -> real)

  /** cos^2 + sin^2 = 1: the one fact that makes a rotation keep the radius. */
  ghost predicate Pythagorean(m: Math) {
    forall t :: m.cos(t) * m.cos(t) + m.sin(t) * m.sin(t) == 1.0
  }

  /** |cos| <= 1 and exp maps non-positive arguments into [0, 1]. */
  ghost predicate Bounded(m: Math) {
    && (forall t :: -1.0 <= m.cos(t) <= 1.0)
    && (forall t :: t <= 0.0 ==> 0.0 <= m.exp(t) <= 1.0)
  }

  function Abs(x: real): (r: real)
    ensures r >= 0.0 && (r == x || r == -x)
  {
    if x < 0.0 then -x else x
  }

  function Min(a: real, b: real): (r: real)
    ensures r <= a && r <= b && (r == a || r == b)
  {
    if a <= b then a else b
  }

  function Max(a: real, b: real): (r: real)
    ensures r >= a && r >= b && (r == a || r == b)
  {
    if a >= b then a else b
  }

  /** `array.min()`: the smallest pixel of a non-empty image. */
  function MinOf(s: seq<real>): (r: real)
    requires |s| > 0
    ensures forall i :: 0 <= i < |s| ==> r <= s[i]
    ensures exists i :: 0 <= i < |s| && r == s[i]
  {
    if |s| == 1 then s[0]
    else
      var rest := MinOf(s[1..]);
      assert forall i :: 1 <= i < |s| ==> s[i] == s[1..][i - 1];
      Min(s[0], rest)
  }

  /** `array.max()`: the largest pixel of a non-empty image. */
  function MaxOf(s: seq<real>): (r: real)
    requires |s| > 0
    ensures forall i :: 0 <= i < |s| ==> s[i] <= r
    ensures exists i :: 0 <= i < |s| && r == s[i]
  {
    if |s| == 1 then s[0]
    else
      var rest := MaxOf(s[1..]);
      assert forall i :: 1 <= i < |s| ==> s[i] == s[1..][i - 1];
      Max(s[0], rest)
  }

  /**
   * The largest magnitude of a pixel (0 for an empty image): the reference
   * notion of "amplitude" against which the two-pass min/max rule is checked.
   */
  function MaxAbs(s: seq<real>): (r: real)
    ensures r >= 0.0
  {
    if |s| == 0 then 0.0 else Max(Abs(s[0]), MaxAbs(s[1..]))
  }

  /** MaxAbs bounds every pixel's magnitude and is attained by one of them. */
  lemma {:induction false} MaxAbsAttained(s: seq<real>)
    ensures forall i :: 0 <= i < |s| ==> Abs(s[i]) <= MaxAbs(s)
    ensures |s| > 0 ==> exists i :: 0 <= i < |s| && MaxAbs(s) == Abs(s[i])
  {
    if |s| > 0 {
      MaxAbsAttained(s[1..]);
      assert forall i :: 1 <= i < |s| ==> s[i] == s[1..][i - 1];
      if |s| == 1 {
        assert s[1..] == [];
        assert MaxAbs(s) == Abs(s[0]);
      } else if MaxAbs(s) == Abs(s[0]) {
        assert 0 <= 0 < |s| && MaxAbs(s) == Abs(s[0]);
      } else {
        var j :| 0 <= j < |s[1..]| && MaxAbs(s[1..]) == Abs(s[1..][j]);
        assert MaxAbs(s) == Abs(s[j + 1]);
      }
    }
  }

  lemma AbsMul(a: real, b: real)
    ensures Abs(a * b) == Abs(a) * Abs(b)
  {
    if a < 0.0 && b < 0.0 {
      assert a * b == (-a) * (-b);
    } else if a < 0.0 {
      assert -(a * b) == (-a) * b;
    } else if b < 0.0 {
      assert -(a * b) == a * (-b);
    }
  }

  /** The amplitude numpy computes as `max(abs(min), abs(max))` is the largest pixel magnitude. */
  lemma MinMaxIsMaxAbs(s: seq<real>)
    requires |s| > 0
    ensures Max(Abs(MinOf(s)), Abs(MaxOf(s))) == MaxAbs(s)
  {
    var lo, hi, m := MinOf(s), MaxOf(s), MaxAbs(s);
    MaxAbsAttained(s);
    var i :| 0 <= i < |s| && m == Abs(s[i]);
    assert lo <= s[i] <= hi;
    var j :| 0 <= j < |s| && lo == s[j];
    var k :| 0 <= k < |s| && hi == s[k];
    assert Abs(lo) <= m && Abs(hi) <= m;
  }

  /** A bound every pixel respects and some pixel attains is the largest magnitude. */
  lemma MaxAbsUnique(s: seq<real>, bound: real, j: nat)
    requires forall i :: 0 <= i < |s| ==> Abs(s[i]) <= bound
    requires j < |s| && Abs(s[j]) == bound
    ensures MaxAbs(s) == bound
  {
    MaxAbsAttained(s);
  }

  /**
   * Rescaling by `req / cur` a value whose magnitude is at most `cur` gives a
   * magnitude at most |req|, and exactly |req| when the value had magnitude `cur`.
   */
  lemma Rescaled(req: real, cur: real, x: real)
    requires cur > 0.0 && Abs(x) <= cur
    ensures Abs(req / cur * x) <= Abs(req)
    ensures Abs(x) == cur ==> Abs(req / cur * x) == Abs(req)
  {
    ScaleBound(req / cur, x, cur);
    DivTimes(req, cur);
  }

  /** Scaling by k keeps the order of magnitudes: |k x| <= |k c| when |x| <= c. */
  lemma ScaleBound(k: real, x: real, c: real)
    requires Abs(x) <= c
    ensures Abs(k * x) <= Abs(k * c)
    ensures Abs(x) == c ==> Abs(k * x) == Abs(k * c)
  {
    AbsMul(k, x);
    AbsMul(k, c);
    MulNonNegative(Abs(k), c - Abs(x));
    assert Abs(k) * (c - Abs(x)) == Abs(k) * c - Abs(k) * Abs(x);
  }

  lemma DivTimes(a: real, b: real)
    requires b != 0.0
    ensures a / b * b == a
  {
  }

  lemma MulNonNegative(a: real, b: real)
    requires a >= 0.0 && b >= 0.0
    ensures a * b >= 0.0
  {
  }

  lemma MulPositive(a: real, b: real)
    requires a > 0.0 && b > 0.0
    ensures a * b > 0.0
  {
  }

  /**
   * The product a * b as a named term. Squares are written through it so that
   * facts about a square carry over from the lemma that proves them to the
   * formulas that use them.
   */
  function Mul(a: real, b: real): real
  {
    a * b
  }

  /** `x ** 2`. */
  function Sq(x: real): real
  {
    Mul(x, x)
  }

  lemma MulPositiveTerm(a: real, b: real)
    requires a > 0.0 && b > 0.0
    ensures Mul(a, b) > 0.0
  {
  }

  lemma MulNegatedTerms(a: real, b: real)
    ensures Mul(a, b) == Mul(-a, -b)
  {
  }

  /** A square is non-negative, and positive unless its root is 0. */
  lemma SqSign(x: real)
    ensures Sq(x) >= 0.0
    ensures x != 0.0 ==> Sq(x) > 0.0
  {
    if x < 0.0 {
      MulPositiveTerm(-x, -x);
      MulNegatedTerms(x, x);
    } else if x > 0.0 {
      MulPositiveTerm(x, x);
    }
  }

  /** A non-negative number over a positive one, negated, is not positive. */
  lemma NegativeOverPositive(n: real, d: real)
    requires n >= 0.0 && d > 0.0
    ensures -n / d <= 0.0
  {
    assert -n / d * d == -n;
  }
}
