/**
 * The normalisation every stimulus constructor performs before storing its
 * parameter lists: the grid of center locations spanned by `center_range`,
 * the expansion of an integer count into evenly spaced orientations or
 * phases, eccentricities turned into aspect ratios, and the default pixel
 * boundaries.
 */
module Configuration {
  import opened Results
  import opened Numerics
  import opened ParameterSpace
  import opened Canvas
  import Arith

  /** `center_range = [x_start, x_end, y_start, y_end]`, ends exclusive. */
  datatype CenterRange = CenterRange(xStart: int, xEnd: int, yStart: int, yEnd: int)

  /** The length of `range(lo, hi)`. */
  function RangeLength(lo: int, hi: int): nat
  {
    if lo <= hi then hi - lo else 0
  }

  /** The grid points with first coordinate x: (x, y) for y in range(yStart, yEnd). */
  function GridColumn(x: int, yStart: int, yEnd: int): (col: seq<Value>)
    ensures |col| == RangeLength(yStart, yEnd)
    ensures forall k :: 0 <= k < |col| ==> col[k] == Point(x as real, (yStart + k) as real)
    decreases yEnd - yStart
  {
    if yEnd <= yStart then [] else GridColumn(x, yStart, yEnd - 1) + [Point(x as real, (yEnd - 1) as real)]
  }

  /** The grid points whose first coordinate lies in range(xStart, xEnd), x outer and y inner. */
  function GridUpTo(cr: CenterRange, xEnd: int): seq<Value>
    decreases xEnd - cr.xStart
  {
    if xEnd <= cr.xStart then []
    else GridUpTo(cr, xEnd - 1) + GridColumn(xEnd - 1, cr.yStart, cr.yEnd)
  }

  /** `[[x, y] for x in range(x_start, x_end) for y in range(y_start, y_end)]`. */
  function Grid(cr: CenterRange): seq<Value>
  {
    GridUpTo(cr, cr.xEnd)
  }

  /** Point i of the partial grid: x advances once every column of y values. */
  lemma {:induction false} GridUpToAt(cr: CenterRange, xEnd: int, i: nat)
    requires cr.xStart <= xEnd
    ensures |GridUpTo(cr, xEnd)| == (xEnd - cr.xStart) * RangeLength(cr.yStart, cr.yEnd)
    ensures i < |GridUpTo(cr, xEnd)| ==>
      RangeLength(cr.yStart, cr.yEnd) > 0 &&
      GridUpTo(cr, xEnd)[i] ==
        Point((cr.xStart + i / RangeLength(cr.yStart, cr.yEnd)) as real, (cr.yStart + i % RangeLength(cr.yStart, cr.yEnd)) as real)
    decreases xEnd - cr.xStart
  {
    var h := RangeLength(cr.yStart, cr.yEnd);
    if xEnd > cr.xStart {
      var n := xEnd - 1 - cr.xStart;
      GridUpToAt(cr, xEnd - 1, i);
      assert (xEnd - cr.xStart) * h == n * h + h;
      if n * h <= i < n * h + h {
        Arith.DivModUnique(i, n, i - n * h, h);
      }
    }
  }

  /** The grid has one point per (x, y) pair, point i being (x_start + i / H, y_start + i % H) for H y values. */
  lemma GridAt(cr: CenterRange, i: nat)
    ensures |Grid(cr)| == RangeLength(cr.xStart, cr.xEnd) * RangeLength(cr.yStart, cr.yEnd)
    ensures i < |Grid(cr)| ==>
      RangeLength(cr.yStart, cr.yEnd) > 0 &&
      Grid(cr)[i] == Point((cr.xStart + i / RangeLength(cr.yStart, cr.yEnd)) as real, (cr.yStart + i % RangeLength(cr.yStart, cr.yEnd)) as real)
  {
    if cr.xStart <= cr.xEnd {
      GridUpToAt(cr, cr.xEnd, i);
    }
  }

  /** Every integer point of the range is on the grid, at position (x - x_start) * H + (y - y_start). */
  lemma GridHolds(cr: CenterRange, x: int, y: int)
    requires cr.xStart <= x < cr.xEnd && cr.yStart <= y < cr.yEnd
    ensures Point(x as real, y as real) in Grid(cr)
  {
    var w, h := RangeLength(cr.xStart, cr.xEnd), RangeLength(cr.yStart, cr.yEnd);
    var i := (x - cr.xStart) * h + (y - cr.yStart);
    Arith.MulAddBound(x - cr.xStart, y - cr.yStart, w, h);
    GridAt(cr, i);
    Arith.DivModUnique(i, x - cr.xStart, y - cr.yStart, h);
  }

  /** Every grid point is an integer point of the range. */
  lemma GridWithin(cr: CenterRange, i: nat)
    requires i < |Grid(cr)|
    ensures var v := Grid(cr)[i];
      && v.Point? && v.x == v.x.Floor as real && v.y == v.y.Floor as real
      && cr.xStart <= v.x.Floor < cr.xEnd && cr.yStart <= v.y.Floor < cr.yEnd
  {
    var w, h := RangeLength(cr.xStart, cr.xEnd), RangeLength(cr.yStart, cr.yEnd);
    GridAt(cr, i);
    Arith.QuotientBound(i, w, h);
  }

  /** The nested loops of the constructors building the location grid. */
  method CenterGrid(cr: CenterRange) returns (locations: seq<Value>)
    ensures locations == Grid(cr)
  {
    locations := [];
    var x := cr.xStart;
    while x < cr.xEnd
      invariant x == cr.xStart || cr.xStart < x <= cr.xEnd
      invariant locations == GridUpTo(cr, x)
      decreases cr.xEnd - x
    {
      var y := cr.yStart;
      while y < cr.yEnd
        invariant y == cr.yStart || cr.yStart < y <= cr.yEnd
        invariant locations == GridUpTo(cr, x) + GridColumn(x, cr.yStart, y)
        decreases cr.yEnd - y
      {
        locations := locations + [Point(x as real, y as real)];
        y := y + 1;
      }
      x := x + 1;
    }
  }

  /** `locations` when given, otherwise the grid over `center_range`. */
  method ResolveLocations(cr: CenterRange, given: Option<seq<Value>>) returns (locations: seq<Value>)
    ensures given.Some? ==> locations == given.value
    ensures given.None? ==> locations == Grid(cr)
  {
    if given.Some? {
      locations := given.value;
    } else {
      locations := CenterGrid(cr);
    }
  }

  /** An angle argument: an explicit list, or an integer count of evenly spaced angles. */
  datatype AngleSpec = Values(values: seq<real>) | Count(k: int)

  /**
   * An explicit list is kept; a count k spreads `np.arange(k) * span / k`
   * over [0, span), which is empty when k is not positive.
   */
  function Spread(spec: AngleSpec, span: real): (angles: seq<real>)
    ensures spec.Values? ==> angles == spec.values
    ensures spec.Count? ==> |angles| == if spec.k > 0 then spec.k else 0
  {
    match spec
    case Values(vs) => vs
    case Count(k) => if k <= 0 then [] else seq(k, i requires 0 <= i < k => (i as real * span) / (k as real))
  }

  /** Orientations spread over [0, pi). */
  function Orientations(spec: AngleSpec): seq<real>
  {
    Spread(spec, PI)
  }

  /** Phases spread over [0, 2 pi). */
  function Phases(spec: AngleSpec): seq<real>
  {
    Spread(spec, 2.0 * PI)
  }

  /** Angle i of k spread over a positive span lies in [0, span). */
  lemma SpreadAngleBounds(i: nat, k: nat, span: real)
    requires i < k && span > 0.0
    ensures 0.0 <= (i as real * span) / (k as real) < span
  {
    var a := i as real * span;
    assert a < k as real * span by {
      assert (k as real - i as real) * span > 0.0;
    }
    assert a / (k as real) < span by {
      assert a / (k as real) * (k as real) == a;
    }
  }

  /** Consecutive spread angles differ by span / k. */
  lemma SpreadAngleStep(i: nat, k: nat, span: real)
    requires k > 0
    ensures ((i + 1) as real * span) / (k as real) - (i as real * span) / (k as real) == span / (k as real)
  {
    assert (i + 1) as real * span == i as real * span + span;
  }

  /** Spread angles increase with their position. */
  lemma SpreadAngleOrder(i: nat, j: nat, k: nat, span: real)
    requires i < j && k > 0 && span > 0.0
    ensures (i as real * span) / (k as real) < (j as real * span) / (k as real)
  {
    var a, b := i as real * span, j as real * span;
    assert a < b by {
      assert b - a == (j - i) as real * span;
    }
    assert b / (k as real) - a / (k as real) == (b - a) / (k as real);
  }

  /** A count k > 0 spreads k angles over [0, span), the first one at 0. */
  lemma SpreadRange(k: int, span: real)
    requires k > 0 && span > 0.0
    ensures Spread(Count(k), span)[0] == 0.0
    ensures forall i :: 0 <= i < k ==> 0.0 <= Spread(Count(k), span)[i] < span
  {
    forall i | 0 <= i < k
      ensures 0.0 <= Spread(Count(k), span)[i] < span
    {
      SpreadAngleBounds(i, k, span);
    }
  }

  /** Each spread angle is span / k above the previous one. */
  lemma SpreadSteps(k: int, span: real)
    requires k > 0
    ensures forall i :: 0 <= i < k - 1 ==> Spread(Count(k), span)[i + 1] - Spread(Count(k), span)[i] == span / (k as real)
  {
    forall i | 0 <= i < k - 1
      ensures Spread(Count(k), span)[i + 1] - Spread(Count(k), span)[i] == span / (k as real)
    {
      SpreadAngleStep(i, k, span);
    }
  }

  /** Spread angles increase strictly, so a count never produces the same angle twice. */
  lemma SpreadIncreasing(k: int, span: real)
    requires k > 0 && span > 0.0
    ensures forall i, j :: 0 <= i < j < k ==> Spread(Count(k), span)[i] < Spread(Count(k), span)[j]
  {
    forall i, j | 0 <= i < j < k
      ensures Spread(Count(k), span)[i] < Spread(Count(k), span)[j]
    {
      SpreadAngleOrder(i, j, k, span);
    }
  }

  /** `gammas`: `[1]` by default, otherwise `1 - e ** 2` for every eccentricity e. */
  function Gammas(eccentricities: Option<seq<real>>): (gammas: seq<real>)
    ensures eccentricities.None? ==> |gammas| == 1
    ensures eccentricities.Some? ==> |gammas| == |eccentricities.value|
  {
    match eccentricities
    case None => [1.0]
    case Some(es) => seq(|es|, i requires 0 <= i < |es| => 1.0 - Sq(es[i]))
  }

  /** The square of a number strictly between 0 and 1 is strictly between 0 and 1. */
  lemma SquareBetween(e: real)
    requires 0.0 < e < 1.0
    ensures 0.0 < Sq(e) < 1.0
  {
    SqSign(e);
    MulPositive(e, 1.0 - e);
    assert e * (1.0 - e) == e - Mul(e, e);
  }

  /**
   * The aspect ratio of one eccentricity in [0, 1] lies in [0, 1]; it is 1
   * exactly for eccentricity 0 (a circular envelope) and 0 exactly for
   * eccentricity 1.
   */
  lemma GammaRange(e: real)
    requires 0.0 <= e <= 1.0
    ensures 0.0 <= 1.0 - Sq(e) <= 1.0
    ensures 1.0 - Sq(e) == 1.0 <==> e == 0.0
    ensures 1.0 - Sq(e) == 0.0 <==> e == 1.0
  {
    if 0.0 < e < 1.0 {
      SquareBetween(e);
    } else {
      assert Sq(e) == e;
    }
  }

  /**
   * The default aspect ratio is 1 (a circular envelope); each eccentricity
   * in [0, 1] gives an aspect ratio in [0, 1].
   */
  lemma GammasRange(eccentricities: Option<seq<real>>)
    requires eccentricities.Some? ==> forall i :: 0 <= i < |eccentricities.value| ==> 0.0 <= eccentricities.value[i] <= 1.0
    ensures eccentricities.None? ==> Gammas(eccentricities) == [1.0]
    ensures eccentricities.Some? ==> forall i :: 0 <= i < |eccentricities.value| ==>
      Gammas(eccentricities)[i] == 1.0 - Sq(eccentricities.value[i]) &&
      0.0 <= Gammas(eccentricities)[i] <= 1.0
  {
    if eccentricities.Some? {
      var es := eccentricities.value;
      forall i | 0 <= i < |es|
        ensures 0.0 <= Gammas(eccentricities)[i] <= 1.0
      {
        GammaRange(es[i]);
      }
    }
  }

  /** `pixel_boundaries`, defaulting to [-1, 1]. */
  function PixelBoundaries(given: Option<Bounds>): (b: Bounds)
    ensures given.None? ==> b == Bounds(-1.0, 1.0)
    ensures given.Some? ==> b == given.value
  {
    if given.Some? then given.value else Bounds(-1.0, 1.0)
  }

  /** A list of numbers as parameter values. */
  function Scalars(s: seq<real>): (vs: seq<Value>)
    ensures |vs| == |s| && forall i :: 0 <= i < |s| ==> vs[i] == Scalar(s[i])
  {
    seq(|s|, i requires 0 <= i < |s| => Scalar(s[i]))
  }
}
