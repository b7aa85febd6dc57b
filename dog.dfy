/**
 * `DiffOfGaussians`: a center Gaussian minus a wider, weighted surround
 * Gaussian, rescaled so that its largest deviation from the grey level is the
 * amplitude the contrast asks for.
 */
module DiffOfGaussians {
  import opened Results
  import opened Numerics
  import opened ParameterSpace
  import opened Canvas
  import opened Configuration

  /** The fields the constructor stores. */
  datatype DoGSet = DoGSet(
    canvas: Canvas,
    locations: seq<Value>,
    sizes: seq<real>,
    sizesScaleSurround: seq<real>,
    contrasts: seq<real>,
    contrastsScaleSurround: seq<real>,
    greyLevel: real,
    bounds: Bounds)

  /** The constructor: explicit locations or the center-range grid, and the default boundaries. */
  method Init(canvas: Canvas, cr: CenterRange, sizes: seq<real>, sizesScaleSurround: seq<real>, contrasts: seq<real>,
              contrastsScaleSurround: seq<real>, greyLevel: real, pixelBoundaries: Option<Bounds>,
              locations: Option<seq<Value>>)
    returns (d: DoGSet)
    ensures d.locations == if locations.Some? then locations.value else Grid(cr)
    ensures d.bounds == PixelBoundaries(pixelBoundaries) && d.canvas == canvas && d.greyLevel == greyLevel
    ensures d.sizes == sizes && d.sizesScaleSurround == sizesScaleSurround
    ensures d.contrasts == contrasts && d.contrastsScaleSurround == contrastsScaleSurround
  {
    var locs := ResolveLocations(cr, locations);
    d := DoGSet(canvas, locs, sizes, sizesScaleSurround, contrasts, contrastsScaleSurround, greyLevel,
                PixelBoundaries(pixelBoundaries));
  }

  /** The keywords of `params()`, in declared order. */
  const DoGNames: seq<string> := ["location", "size", "size_scale_surround", "contrast", "contrast_scale_surround"]

  /** `params()`: the five lists, each with its keyword. */
  function Params(d: DoGSet): (ps: seq<Descriptor>)
    ensures Names(ps) == DoGNames
    ensures ps[0].values == d.locations
    ensures forall k :: 1 <= k < |ps| ==> forall v :: v in ps[k].values ==> v.Scalar?
  {
    [ Descriptor(d.locations, "location"),
      Descriptor(Scalars(d.sizes), "size"),
      Descriptor(Scalars(d.sizesScaleSurround), "size_scale_surround"),
      Descriptor(Scalars(d.contrasts), "contrast"),
      Descriptor(Scalars(d.contrastsScaleSurround), "contrast_scale_surround") ]
  }

  /** The arguments of `stimulus`, each of the kind the formula uses. */
  datatype DoGArgs = DoGArgs(
    x: real, y: real, size: real, sizeScaleSurround: real, contrast: real, contrastScaleSurround: real)

  /** The bound values, in signature order, as formula arguments. */
  function Arguments(vals: seq<Value>): (r: Result<DoGArgs>)
    requires |vals| == |DoGNames|
    ensures r.Ok? <==> vals[0].Point? && forall i :: 1 <= i < |vals| ==> vals[i].Scalar?
    ensures r.Ok? ==> r.value == DoGArgs(vals[0].x, vals[0].y, vals[1].r, vals[2].r, vals[3].r, vals[4].r)
  {
    var loc :- AsPoint(vals[0], "location");
    var size :- AsScalar(vals[1], "size");
    var sss :- AsScalar(vals[2], "size_scale_surround");
    var contrast :- AsScalar(vals[3], "contrast");
    var css :- AsScalar(vals[4], "contrast_scale_surround");
    Ok(DoGArgs(loc.0, loc.1, size, sss, contrast, css))
  }

  /** `gaussian_density`: the unnormalised density exp(-r^2 / (2 scale^2)) at pixel p around (x0, y0). */
  function Density(m: Math, c: Canvas, x0: real, y0: real, scale: real, p: nat): real
    requires scale != 0.0 && p < Pixels(c)
  {
    SqSign(scale);
    m.exp(-(Sq(PixelX(c, p) - x0) + Sq(PixelY(c, p) - y0)) / (2.0 * Sq(scale)))
  }

  /** The surround scale `size_scale_surround * size` is non-zero when both factors are. */
  lemma SurroundScaleNonZero(a: DoGArgs)
    requires a.size != 0.0 && a.sizeScaleSurround > 1.0
    ensures a.sizeScaleSurround * a.size != 0.0
  {
    if a.size > 0.0 {
      MulPositive(a.sizeScaleSurround, a.size);
    } else {
      MulPositive(a.sizeScaleSurround, -a.size);
      assert a.sizeScaleSurround * a.size == -(a.sizeScaleSurround * -a.size);
    }
  }

  /** `center - contrast_scale_surround * surround` at every pixel, before rescaling. */
  function Raw(m: Math, c: Canvas, a: DoGArgs): (raw: Image)
    requires a.size != 0.0 && a.sizeScaleSurround > 1.0
    ensures |raw| == Pixels(c)
  {
    SurroundScaleNonZero(a);
    seq(Pixels(c), p requires 0 <= p < Pixels(c) =>
      Density(m, c, a.x, a.y, a.size, p) - a.contrastScaleSurround * Density(m, c, a.x, a.y, a.sizeScaleSurround * a.size, p))
  }

  /** `amplitude_current`: the larger magnitude of the smallest and the largest raw pixel. */
  function CurrentAmplitude(raw: Image): (cur: real)
    requires |raw| > 0
    ensures cur == MaxAbs(raw)
  {
    MinMaxIsMaxAbs(raw);
    Max(Abs(MinOf(raw)), Abs(MaxOf(raw)))
  }

  /** One rescaled pixel: `contrast_scaling * center_surround + grey_level`. */
  function Scaled(scaling: real, raw: real, grey: real): real
  {
    scaling * raw + grey
  }

  /**
   * The scaling `amplitude_required / amplitude_current` applied to every
   * raw pixel; a raw image that is 0 everywhere divides by zero and leaves
   * inf or nan pixels, which the model reports as a failure.
   */
  function Rescale(raw: Image, req: real, grey: real): (r: Result<Image>)
    requires |raw| > 0
    ensures r.Ok? <==> MaxAbs(raw) != 0.0
    ensures r.Err? ==> r.error == NonFinite
    ensures r.Ok? ==> |r.value| == |raw| && forall p :: 0 <= p < |raw| ==> r.value[p] == Scaled(req / MaxAbs(raw), raw[p], grey)
  {
    var cur := CurrentAmplitude(raw);
    if cur == 0.0 then Err(NonFinite)
    else Ok(seq(|raw|, p requires 0 <= p < |raw| => Scaled(req / cur, raw[p], grey)))
  }

  /**
   * A raw value of magnitude at most `cur` deviates from the grey level, once
   * rescaled, by at most |req|, and by exactly |req| when its magnitude is `cur`.
   */
  lemma ScaledDeviation(req: real, cur: real, x: real, grey: real)
    requires cur > 0.0 && Abs(x) <= cur
    ensures Abs(Scaled(req / cur, x, grey) - grey) <= Abs(req)
    ensures Abs(x) == cur ==> Abs(Scaled(req / cur, x, grey) - grey) == Abs(req)
  {
    Rescaled(req, cur, x);
    assert Scaled(req / cur, x, grey) - grey == req / cur * x;
  }

  /**
   * The DoG image. The guard on the surround scale comes first; then the
   * minimum of an empty image raises; a zero size divides by zero inside the
   * densities, which numpy turns into inf or nan pixels.
   */
  function Render(m: Math, c: Canvas, b: Bounds, grey: real, a: DoGArgs): (r: Result<Image>)
    ensures a.sizeScaleSurround <= 1.0 ==> r == Err(DomainError("size_surround must be larger than 1."))
    ensures a.sizeScaleSurround > 1.0 && Pixels(c) == 0 ==> r == Err(EmptyArray)
    ensures a.sizeScaleSurround > 1.0 && Pixels(c) > 0 && a.size == 0.0 ==> r == Err(NonFinite)
    ensures a.sizeScaleSurround > 1.0 && Pixels(c) > 0 && a.size != 0.0 ==>
      r == Rescale(Raw(m, c, a), Amplitude(a.contrast, b, grey), grey)
  {
    if a.sizeScaleSurround <= 1.0 then Err(DomainError("size_surround must be larger than 1."))
    else if Pixels(c) == 0 then Err(EmptyArray)
    else if a.size == 0.0 then Err(NonFinite)
    else Rescale(Raw(m, c, a), Amplitude(a.contrast, b, grey), grey)
  }

  /** `stimulus(**kw)`: bind the five keywords (extra keywords are accepted and ignored), then draw. */
  function Stimulus(m: Math, d: DoGSet, kw: map<string, Value>): Result<Image>
  {
    var vals :- Bind(kw, DoGNames);
    Draw(m, d, vals)
  }

  /** The formula applied to bound values in signature order. */
  function Draw(m: Math, d: DoGSet, vals: seq<Value>): Result<Image>
    requires |vals| == |DoGNames|
  {
    var a :- Arguments(vals);
    Render(m, d.canvas, d.bounds, d.greyLevel, a)
  }

  /** The signature takes `**kwargs`: keywords beyond the five do not change the image. */
  lemma ExtraKeywordsIgnored(m: Math, d: DoGSet, kw: map<string, Value>, extra: map<string, Value>)
    requires forall n :: n in DoGNames ==> n in kw
    ensures Stimulus(m, d, extra + kw) == Stimulus(m, d, kw)
  {
    BindIgnoresExtra(kw, extra, DoGNames);
  }

  /** The deviations of the image from the grey level. */
  function Deviation(img: Image, grey: real): (dev: seq<real>)
    ensures |dev| == |img| && forall p :: 0 <= p < |img| ==> dev[p] == img[p] - grey
  {
    seq(|img|, p requires 0 <= p < |img| => img[p] - grey)
  }

  /**
   * The rescaling does what it is for: the largest deviation of any pixel
   * from the grey level is exactly the required amplitude (in magnitude).
   */
  lemma RescaleReachesAmplitude(raw: Image, req: real, grey: real)
    requires |raw| > 0 && Rescale(raw, req, grey).Ok?
    ensures MaxAbs(Deviation(Rescale(raw, req, grey).value, grey)) == Abs(req)
  {
    var img := Rescale(raw, req, grey).value;
    var dev := Deviation(img, grey);
    MaxAbsAttained(raw);
    var j :| 0 <= j < |raw| && MaxAbs(raw) == Abs(raw[j]);
    forall p | 0 <= p < |dev|
      ensures Abs(dev[p]) <= Abs(req)
    {
      ScaledDeviation(req, MaxAbs(raw), raw[p], grey);
    }
    ScaledDeviation(req, MaxAbs(raw), raw[j], grey);
    MaxAbsUnique(dev, Abs(req), j);
  }

  /** A non-negative required amplitude that fits around the grey level keeps every rescaled pixel within the boundaries. */
  lemma RescaleWithinBounds(raw: Image, req: real, grey: real, b: Bounds)
    requires |raw| > 0 && Rescale(raw, req, grey).Ok?
    requires 0.0 <= req && b.low <= grey - req && grey + req <= b.high
    ensures forall p :: 0 <= p < |raw| ==> b.low <= Rescale(raw, req, grey).value[p] <= b.high
  {
    MaxAbsAttained(raw);
    forall p | 0 <= p < |raw|
      ensures b.low <= Rescale(raw, req, grey).value[p] <= b.high
    {
      ScaledDeviation(req, MaxAbs(raw), raw[p], grey);
    }
  }

  /**
   * A drawn DoG deviates from the grey level by at most, and somewhere by
   * exactly, `contrast * min(|low - grey|, |high - grey|)` (in magnitude).
   */
  lemma RenderReachesAmplitude(m: Math, c: Canvas, b: Bounds, grey: real, a: DoGArgs)
    requires Render(m, c, b, grey, a).Ok?
    ensures MaxAbs(Deviation(Render(m, c, b, grey, a).value, grey)) == Abs(Amplitude(a.contrast, b, grey))
  {
    RescaleReachesAmplitude(Raw(m, c, a), Amplitude(a.contrast, b, grey), grey);
  }

  /** For a contrast in [0, 1] and a grey level inside the boundaries, every pixel lies within the boundaries. */
  lemma RenderWithinBounds(m: Math, c: Canvas, b: Bounds, grey: real, a: DoGArgs)
    requires Render(m, c, b, grey, a).Ok?
    requires 0.0 <= a.contrast <= 1.0 && b.low <= grey <= b.high
    ensures |Render(m, c, b, grey, a).value| == Pixels(c)
    ensures forall p :: 0 <= p < Pixels(c) ==> b.low <= Render(m, c, b, grey, a).value[p] <= b.high
  {
    AmplitudeFits(a.contrast, b, grey);
    RescaleWithinBounds(Raw(m, c, a), Amplitude(a.contrast, b, grey), grey, b);
  }

  /** With contrast 0 every pixel of a drawable DoG is the grey level. */
  lemma ZeroContrastIsGrey(m: Math, c: Canvas, b: Bounds, grey: real, a: DoGArgs)
    requires Render(m, c, b, grey, a).Ok? && a.contrast == 0.0
    ensures Render(m, c, b, grey, a) == Ok(seq(Pixels(c), p => grey))
  {
    var img := Render(m, c, b, grey, a).value;
    assert Amplitude(a.contrast, b, grey) == 0.0;
    assert img == seq(Pixels(c), p => grey);
  }
}
