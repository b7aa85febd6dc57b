/**
 * `GaborSet`: sinusoidal gratings under a Gaussian envelope. Its constructor
 * normalises the parameter lists, its `params_from_idx` turns the spatial
 * frequency into cycles per size when `relative_sf` is set, and its
 * `stimulus` draws one Gabor patch around the grey level.
 */
module Gabor {
  import opened Results
  import opened Numerics
  import opened ParameterSpace
  import opened Canvas
  import opened Configuration

  /** The fields the constructor stores (the center range is only used to build the locations). */
  datatype GaborSet = GaborSet(
    canvas: Canvas,
    locations: seq<Value>,
    sizes: seq<real>,
    spatialFrequencies: seq<real>,
    contrasts: seq<real>,
    greyLevel: real,
    bounds: Bounds,
    orientations: seq<real>,
    phases: seq<real>,
    gammas: seq<real>,
    relativeSf: bool)

  /** The constructor: explicit locations or the center-range grid, spread angles, aspect ratios, default boundaries. */
  method Init(canvas: Canvas, cr: CenterRange, sizes: seq<real>, spatialFrequencies: seq<real>, contrasts: seq<real>,
              orientations: AngleSpec, phases: AngleSpec, greyLevel: real, pixelBoundaries: Option<Bounds>,
              eccentricities: Option<seq<real>>, locations: Option<seq<Value>>, relativeSf: bool)
    returns (g: GaborSet)
    ensures g.locations == if locations.Some? then locations.value else Grid(cr)
    ensures g.orientations == Orientations(orientations) && g.phases == Phases(phases)
    ensures g.gammas == Gammas(eccentricities) && g.bounds == PixelBoundaries(pixelBoundaries)
    ensures g.canvas == canvas && g.sizes == sizes && g.spatialFrequencies == spatialFrequencies
    ensures g.contrasts == contrasts && g.greyLevel == greyLevel && g.relativeSf == relativeSf
  {
    var locs := ResolveLocations(cr, locations);
    g := GaborSet(canvas, locs, sizes, spatialFrequencies, contrasts, greyLevel, PixelBoundaries(pixelBoundaries),
                  Orientations(orientations), Phases(phases), Gammas(eccentricities), relativeSf);
  }

  /** The keywords of `params()`, in declared order. */
  const GaborNames: seq<string> := ["location", "size", "spatial_frequency", "contrast", "orientation", "phase", "gamma"]

  /** `params()`: the seven lists, each with its keyword. */
  function Params(g: GaborSet): (ps: seq<Descriptor>)
    ensures Names(ps) == GaborNames
    ensures ScalarsAt(ps, 1) && ScalarsAt(ps, 2)
  {
    [ Descriptor(g.locations, "location"),
      Descriptor(Scalars(g.sizes), "size"),
      Descriptor(Scalars(g.spatialFrequencies), "spatial_frequency"),
      Descriptor(Scalars(g.contrasts), "contrast"),
      Descriptor(Scalars(g.orientations), "orientation"),
      Descriptor(Scalars(g.phases), "phase"),
      Descriptor(Scalars(g.gammas), "gamma") ]
  }

  /** List k of the descriptors holds only numbers. */
  predicate ScalarsAt(ps: seq<Descriptor>, k: nat)
  {
    k < |ps| && forall v :: v in ps[k].values ==> v.Scalar?
  }

  /**
   * `params_from_idx` of the Gabor and Plaid sets: the base decomposition,
   * then, with `relative_sf`, entry 2 (spatial frequency) divided by entry 1
   * (size). Python's float division by a zero size raises.
   */
  function RelativeParamsFromIdx(ps: seq<Descriptor>, relativeSf: bool, idx: int): (r: Result<seq<Value>>)
    requires ScalarsAt(ps, 1) && ScalarsAt(ps, 2)
  {
    var base :- ParameterSpace.ParamsFromIdx(ps, idx);
    if !relativeSf then Ok(base)
    else if base[1].r == 0.0 then Err(ZeroDivision)
    else Ok(base[2 := Scalar(base[2].r / base[1].r)])
  }

  /**
   * Without `relative_sf` the override is the base decomposition. With it,
   * only the spatial-frequency entry changes, to frequency / size; a zero
   * size is the only new failure.
   */
  lemma RelativeSfOnlyScalesFrequency(ps: seq<Descriptor>, relativeSf: bool, idx: int)
    requires ScalarsAt(ps, 1) && ScalarsAt(ps, 2)
    ensures var base, r := ParameterSpace.ParamsFromIdx(ps, idx), RelativeParamsFromIdx(ps, relativeSf, idx);
      && (base.Err? || !relativeSf ==> r == base)
      && (base.Ok? && relativeSf ==>
            && base.value[1].Scalar? && base.value[2].Scalar?
            && (r.Err? <==> base.value[1].r == 0.0)
            && (r.Err? ==> r.error == ZeroDivision)
            && (r.Ok? ==>
                  && |r.value| == |base.value|
                  && r.value[2] == Scalar(base.value[2].r / base.value[1].r)
                  && forall i :: 0 <= i < |ps| && i != 2 ==> r.value[i] == base.value[i]))
  {
  }

  /** The override as the source writes it: a local list whose entry 2 is divided in place. */
  method ParamsFromIdx(ps: seq<Descriptor>, relativeSf: bool, idx: int) returns (r: Result<seq<Value>>)
    requires ScalarsAt(ps, 1) && ScalarsAt(ps, 2)
    ensures r == RelativeParamsFromIdx(ps, relativeSf, idx)
  {
    var base := ParameterSpace.ParamsFromIdx(ps, idx);
    if base.Err? {
      return base;
    }
    var params := base.value;
    if relativeSf {
      if params[1].r == 0.0 {
        return Err(ZeroDivision);
      }
      params := params[2 := Scalar(params[2].r / params[1].r)];
    }
    return Ok(params);
  }

  /** The arguments of `stimulus`, each of the kind the formula uses. */
  datatype GaborArgs = GaborArgs(
    x: real, y: real, size: real, spatialFrequency: real, contrast: real,
    orientation: real, phase: real, gamma: real)

  /** The bound values, in signature order, as formula arguments. */
  function Arguments(vals: seq<Value>): (r: Result<GaborArgs>)
    requires |vals| == |GaborNames|
    ensures r.Ok? <==> vals[0].Point? && forall i :: 1 <= i < |vals| ==> vals[i].Scalar?
    ensures r.Ok? ==> r.value == GaborArgs(vals[0].x, vals[0].y, vals[1].r, vals[2].r, vals[3].r, vals[4].r, vals[5].r, vals[6].r)
  {
    var loc :- AsPoint(vals[0], "location");
    var size :- AsScalar(vals[1], "size");
    var sf :- AsScalar(vals[2], "spatial_frequency");
    var contrast :- AsScalar(vals[3], "contrast");
    var orientation :- AsScalar(vals[4], "orientation");
    var phase :- AsScalar(vals[5], "phase");
    var gamma :- AsScalar(vals[6], "gamma");
    Ok(GaborArgs(loc.0, loc.1, size, sf, contrast, orientation, phase, gamma))
  }

  /** The envelope's denominator 2 (size/4)^2 is positive for a non-zero size. */
  lemma SpreadPositive(size: real)
    requires size != 0.0
    ensures 2.0 * Sq(size / 4.0) > 0.0
  {
    SqSign(size / 4.0);
  }

  /** The Gaussian envelope at rotated offset (u, v): exp(-(u^2 + gamma v^2) / (2 (size/4)^2)). */
  function Envelope(m: Math, a: GaborArgs, u: real, v: real): real
    requires a.size != 0.0
  {
    SpreadPositive(a.size);
    m.exp(-(Sq(u) + a.gamma * Sq(v)) / (2.0 * Sq(a.size / 4.0)))
  }

  /** The grating along the rotated axis: cos(2 pi f u + phase). */
  function Grating(m: Math, a: GaborArgs, u: real): real
  {
    m.cos(a.spatialFrequency * u * (2.0 * PI) + a.phase)
  }

  /** One pixel: amplitude times envelope times grating, plus the grey level. */
  function Pixel(m: Math, c: Canvas, b: Bounds, grey: real, a: GaborArgs, p: nat): real
    requires a.size != 0.0 && p < Pixels(c)
  {
    var (u, v) := Rotate(m, a.orientation, PixelX(c, p) - a.x, PixelY(c, p) - a.y);
    Amplitude(a.contrast, b, grey) * (Envelope(m, a, u, v) * Grating(m, a, u)) + grey
  }

  /**
   * The Gabor image. A zero size divides by zero inside the envelope, which
   * numpy turns into inf or nan pixels; the model reports that as a failure.
   */
  function Render(m: Math, c: Canvas, b: Bounds, grey: real, a: GaborArgs): (r: Result<Image>)
    ensures r.Ok? <==> a.size != 0.0
    ensures r.Err? ==> r.error == NonFinite
    ensures r.Ok? ==> |r.value| == Pixels(c) && forall p :: 0 <= p < Pixels(c) ==> r.value[p] == Pixel(m, c, b, grey, a, p)
  {
    if a.size == 0.0 then Err(NonFinite)
    else Ok(seq(Pixels(c), p requires 0 <= p < Pixels(c) => Pixel(m, c, b, grey, a, p)))
  }

  /** The formula applied to bound values in signature order. */
  function Draw(m: Math, g: GaborSet, vals: seq<Value>): Result<Image>
    requires |vals| == |GaborNames|
  {
    var a :- Arguments(vals);
    Render(m, g.canvas, g.bounds, g.greyLevel, a)
  }

  /** `stimulus(**kw)`: bind the seven keywords (extra keywords are accepted and ignored), then draw. */
  function Stimulus(m: Math, g: GaborSet, kw: map<string, Value>): Result<Image>
  {
    var vals :- Bind(kw, GaborNames);
    Draw(m, g, vals)
  }

  /** The signature takes `**kwargs`: keywords beyond the seven do not change the image. */
  lemma ExtraKeywordsIgnored(m: Math, g: GaborSet, kw: map<string, Value>, extra: map<string, Value>)
    requires forall n :: n in GaborNames ==> n in kw
    ensures Stimulus(m, g, extra + kw) == Stimulus(m, g, kw)
  {
    BindIgnoresExtra(kw, extra, GaborNames);
  }

  /** Envelope times grating lies in [-1, 1] when |cos| <= 1, exp maps non-positive numbers into [0, 1] and gamma >= 0. */
  lemma PatternBounded(m: Math, a: GaborArgs, u: real, v: real)
    requires Bounded(m) && a.size != 0.0 && a.gamma >= 0.0
    ensures -1.0 <= Envelope(m, a, u, v) * Grating(m, a, u) <= 1.0
  {
    SqSign(u);
    SqSign(v);
    MulNonNegative(a.gamma, Sq(v));
    SpreadPositive(a.size);
    NegativeOverPositive(Sq(u) + a.gamma * Sq(v), 2.0 * Sq(a.size / 4.0));
    UnitProduct(Envelope(m, a, u, v), Grating(m, a, u));
  }

  /** A number in [0, 1] times a number in [-1, 1] lies in [-1, 1]. */
  lemma UnitProduct(e: real, t: real)
    requires 0.0 <= e <= 1.0 && -1.0 <= t <= 1.0
    ensures -1.0 <= e * t <= 1.0
  {
    MulNonNegative(e, 1.0 - t);
    MulNonNegative(e, t + 1.0);
    MulNonNegative(1.0 - e, 1.0);
  }

  /**
   * For a contrast in [0, 1], a grey level inside the boundaries and a
   * non-negative aspect ratio, every pixel of the Gabor lies within the
   * boundaries.
   */
  lemma RenderWithinBounds(m: Math, c: Canvas, b: Bounds, grey: real, a: GaborArgs)
    requires Bounded(m) && a.size != 0.0 && a.gamma >= 0.0
    requires 0.0 <= a.contrast <= 1.0 && b.low <= grey <= b.high
    ensures Render(m, c, b, grey, a).Ok?
    ensures forall p :: 0 <= p < Pixels(c) ==> b.low <= Render(m, c, b, grey, a).value[p] <= b.high
  {
    forall p | 0 <= p < Pixels(c)
      ensures b.low <= Pixel(m, c, b, grey, a, p) <= b.high
    {
      var (u, v) := Rotate(m, a.orientation, PixelX(c, p) - a.x, PixelY(c, p) - a.y);
      PatternBounded(m, a, u, v);
      ModulationFits(a.contrast, b, grey, Envelope(m, a, u, v) * Grating(m, a, u));
    }
  }

  /** With contrast 0 every pixel is the grey level. */
  lemma ZeroContrastIsGrey(m: Math, c: Canvas, b: Bounds, grey: real, a: GaborArgs)
    requires a.size != 0.0 && a.contrast == 0.0
    ensures Render(m, c, b, grey, a) == Ok(seq(Pixels(c), p => grey))
  {
    var img := Render(m, c, b, grey, a).value;
    forall p | 0 <= p < Pixels(c)
      ensures img[p] == grey
    {
      assert Amplitude(a.contrast, b, grey) == 0.0;
    }
    assert img == seq(Pixels(c), p => grey);
  }

  /**
   * At the pixel under the location the rotated offset is (0, 0): the
   * envelope is exp(0) and the grating cos(phase).
   */
  lemma PeakAtLocation(m: Math, c: Canvas, b: Bounds, grey: real, a: GaborArgs, x: nat, y: nat)
    requires a.size != 0.0 && x < c.width && y < c.height && a.x == x as real && a.y == y as real
    ensures y * c.width + x < Pixels(c)
    ensures Pixel(m, c, b, grey, a, y * c.width + x) == Amplitude(a.contrast, b, grey) * (m.exp(0.0) * m.cos(a.phase)) + grey
  {
    var p := y * c.width + x;
    PixelAt(c, x, y);
    assert PixelX(c, p) - a.x == 0.0 && PixelY(c, p) - a.y == 0.0;
    assert Rotate(m, a.orientation, 0.0, 0.0) == (0.0, 0.0);
    EnvelopeAtOrigin(m, a);
    assert Grating(m, a, 0.0) == m.cos(a.phase);
  }

  /** At the location the envelope's exponent is 0, whatever the aspect ratio. */
  lemma EnvelopeAtOrigin(m: Math, a: GaborArgs)
    requires a.size != 0.0
    ensures Envelope(m, a, 0.0, 0.0) == m.exp(0.0)
  {
    SpreadPositive(a.size);
    assert Sq(0.0) == 0.0;
  }
}
