/**
 * `PlaidsSet`: the sum of two Gabors that share location, size, frequency,
 * phase and aspect ratio, one at the preferred orientation and one turned by
 * a right angle, each with its own contrast. The set inherits the Gabor
 * override of `params_from_idx`, so `relative_sf` applies here as well.
 */
module Plaids {
  import opened Results
  import opened Numerics
  import opened ParameterSpace
  import opened Canvas
  import opened Configuration
  import Gabor

  /** The fields the constructor stores. */
  datatype PlaidsSet = PlaidsSet(
    canvas: Canvas,
    locations: seq<Value>,
    sizes: seq<real>,
    spatialFrequencies: seq<real>,
    orientations: seq<real>,
    phases: seq<real>,
    gammas: seq<real>,
    contrastsPreferred: seq<real>,
    contrastsOrthogonal: seq<real>,
    greyLevel: real,
    bounds: Bounds,
    relativeSf: bool)

  /** The constructor: the same normalisation of locations, angles, aspect ratios and boundaries as the Gabor set. */
  method Init(canvas: Canvas, cr: CenterRange, sizes: seq<real>, spatialFrequencies: seq<real>,
              orientations: AngleSpec, phases: AngleSpec, contrastsPreferred: seq<real>, contrastsOrthogonal: seq<real>,
              greyLevel: real, pixelBoundaries: Option<Bounds>, eccentricities: Option<seq<real>>,
              locations: Option<seq<Value>>, relativeSf: bool)
    returns (s: PlaidsSet)
    ensures s.locations == if locations.Some? then locations.value else Grid(cr)
    ensures s.orientations == Orientations(orientations) && s.phases == Phases(phases)
    ensures s.gammas == Gammas(eccentricities) && s.bounds == PixelBoundaries(pixelBoundaries)
    ensures s.canvas == canvas && s.sizes == sizes && s.spatialFrequencies == spatialFrequencies
    ensures s.contrastsPreferred == contrastsPreferred && s.contrastsOrthogonal == contrastsOrthogonal
    ensures s.greyLevel == greyLevel && s.relativeSf == relativeSf
  {
    var locs := ResolveLocations(cr, locations);
    s := PlaidsSet(canvas, locs, sizes, spatialFrequencies, Orientations(orientations), Phases(phases),
                   Gammas(eccentricities), contrastsPreferred, contrastsOrthogonal, greyLevel,
                   PixelBoundaries(pixelBoundaries), relativeSf);
  }

  /** The keywords of `params()`, in declared order. */
  const PlaidNames: seq<string> := ["location", "size", "spatial_frequency", "orientation", "phase", "gamma",
                                    "contrast_preferred", "contrast_orthogonal"]

  /** `params()`: the eight lists, each with its keyword; size and spatial frequency sit where the Gabor override expects them. */
  function Params(s: PlaidsSet): (ps: seq<Descriptor>)
    ensures Names(ps) == PlaidNames
    ensures Gabor.ScalarsAt(ps, 1) && Gabor.ScalarsAt(ps, 2)
    ensures |ps[0].values| == |s.locations| && ps[0].values == s.locations
  {
    [ Descriptor(s.locations, "location"),
      Descriptor(Scalars(s.sizes), "size"),
      Descriptor(Scalars(s.spatialFrequencies), "spatial_frequency"),
      Descriptor(Scalars(s.orientations), "orientation"),
      Descriptor(Scalars(s.phases), "phase"),
      Descriptor(Scalars(s.gammas), "gamma"),
      Descriptor(Scalars(s.contrastsPreferred), "contrast_preferred"),
      Descriptor(Scalars(s.contrastsOrthogonal), "contrast_orthogonal") ]
  }

  /** The arguments of `stimulus`, each of the kind the formula uses. */
  datatype PlaidArgs = PlaidArgs(
    x: real, y: real, size: real, spatialFrequency: real, orientation: real, phase: real, gamma: real,
    contrastPreferred: real, contrastOrthogonal: real)

  /** The bound values, in signature order, as formula arguments. */
  function Arguments(vals: seq<Value>): (r: Result<PlaidArgs>)
    requires |vals| == |PlaidNames|
    ensures r.Ok? <==> vals[0].Point? && forall i :: 1 <= i < |vals| ==> vals[i].Scalar?
    ensures r.Ok? ==> r.value == PlaidArgs(vals[0].x, vals[0].y, vals[1].r, vals[2].r, vals[3].r, vals[4].r,
                                           vals[5].r, vals[6].r, vals[7].r)
  {
    var loc :- AsPoint(vals[0], "location");
    var size :- AsScalar(vals[1], "size");
    var sf :- AsScalar(vals[2], "spatial_frequency");
    var orientation :- AsScalar(vals[3], "orientation");
    var phase :- AsScalar(vals[4], "phase");
    var gamma :- AsScalar(vals[5], "gamma");
    var cp :- AsScalar(vals[6], "contrast_preferred");
    var co :- AsScalar(vals[7], "contrast_orthogonal");
    Ok(PlaidArgs(loc.0, loc.1, size, sf, orientation, phase, gamma, cp, co))
  }

  /** The Gabor at the preferred orientation, with the preferred contrast. */
  function Preferred(a: PlaidArgs): (g: Gabor.GaborArgs)
    ensures g.contrast == a.contrastPreferred && g.orientation == a.orientation
    ensures (g.x, g.y, g.size, g.spatialFrequency, g.phase, g.gamma) == (a.x, a.y, a.size, a.spatialFrequency, a.phase, a.gamma)
  {
    Gabor.GaborArgs(a.x, a.y, a.size, a.spatialFrequency, a.contrastPreferred, a.orientation, a.phase, a.gamma)
  }

  /** The Gabor turned by a right angle, with the orthogonal contrast. */
  function Orthogonal(a: PlaidArgs): (g: Gabor.GaborArgs)
    ensures g.contrast == a.contrastOrthogonal && g.orientation == a.orientation + PI / 2.0
    ensures (g.x, g.y, g.size, g.spatialFrequency, g.phase, g.gamma) == (a.x, a.y, a.size, a.spatialFrequency, a.phase, a.gamma)
  {
    Gabor.GaborArgs(a.x, a.y, a.size, a.spatialFrequency, a.contrastOrthogonal, a.orientation + PI / 2.0, a.phase, a.gamma)
  }

  /** The plaid image: the two Gabor images added pixel by pixel; it fails exactly when either Gabor does. */
  function Render(m: Math, c: Canvas, b: Bounds, grey: real, a: PlaidArgs): (r: Result<Image>)
    ensures r.Ok? <==> a.size != 0.0
    ensures r.Err? ==> r.error == NonFinite
    ensures r.Ok? ==> |r.value| == Pixels(c) && forall p :: 0 <= p < Pixels(c) ==>
      r.value[p] == Gabor.Pixel(m, c, b, grey, Preferred(a), p) + Gabor.Pixel(m, c, b, grey, Orthogonal(a), p)
  {
    if a.size == 0.0 then Err(NonFinite)
    else
      var preferred := Gabor.Render(m, c, b, grey, Preferred(a)).value;
      var orthogonal := Gabor.Render(m, c, b, grey, Orthogonal(a)).value;
      Ok(seq(Pixels(c), p requires 0 <= p < Pixels(c) => preferred[p] + orthogonal[p]))
  }

  /**
   * `stimulus(**kw)`: bind the eight keywords; the remaining keywords are
   * passed on to both Gabor calls, where a `contrast` keyword collides with
   * the contrast the plaid passes itself.
   */
  function Stimulus(m: Math, s: PlaidsSet, kw: map<string, Value>): (r: Result<Image>)
  {
    var vals :- Bind(kw, PlaidNames);
    if "contrast" in kw then Err(DuplicateArgument("contrast"))
    else Draw(m, s, vals)
  }

  /** The formula applied to bound values in signature order. */
  function Draw(m: Math, s: PlaidsSet, vals: seq<Value>): Result<Image>
    requires |vals| == |PlaidNames|
  {
    var a :- Arguments(vals);
    Render(m, s.canvas, s.bounds, s.greyLevel, a)
  }

  /**
   * Keywords beyond the eight do not change the image, unless one of them is
   * `contrast`, which fails the call whenever all eight are present.
   */
  lemma ExtraKeywords(m: Math, s: PlaidsSet, kw: map<string, Value>, extra: map<string, Value>)
    requires forall n :: n in PlaidNames ==> n in kw
    ensures "contrast" !in kw && "contrast" !in extra ==> Stimulus(m, s, extra + kw) == Stimulus(m, s, kw)
    ensures "contrast" in kw ==> Stimulus(m, s, kw) == Err(DuplicateArgument("contrast"))
  {
    BindIgnoresExtra(kw, extra, PlaidNames);
  }

  /**
   * Each Gabor adds the grey level, so the plaid is centred on twice the grey
   * level, and its deviation from there is at most the sum of the two
   * amplitudes (for contrasts in [0, 1] and a non-negative aspect ratio).
   */
  lemma RenderAroundDoubleGrey(m: Math, c: Canvas, b: Bounds, grey: real, a: PlaidArgs)
    requires Bounded(m) && a.size != 0.0 && a.gamma >= 0.0 && b.low <= grey <= b.high
    requires 0.0 <= a.contrastPreferred <= 1.0 && 0.0 <= a.contrastOrthogonal <= 1.0
    ensures Render(m, c, b, grey, a).Ok?
    ensures forall p :: 0 <= p < Pixels(c) ==>
      Abs(Render(m, c, b, grey, a).value[p] - 2.0 * grey) <=
        Amplitude(a.contrastPreferred, b, grey) + Amplitude(a.contrastOrthogonal, b, grey)
  {
    forall p | 0 <= p < Pixels(c)
      ensures Abs(Gabor.Pixel(m, c, b, grey, Preferred(a), p) - grey) <= Amplitude(a.contrastPreferred, b, grey)
      ensures Abs(Gabor.Pixel(m, c, b, grey, Orthogonal(a), p) - grey) <= Amplitude(a.contrastOrthogonal, b, grey)
    {
      GaborDeviation(m, c, b, grey, Preferred(a), p);
      GaborDeviation(m, c, b, grey, Orthogonal(a), p);
    }
  }

  /** A Gabor pixel lies within its amplitude of the grey level. */
  lemma GaborDeviation(m: Math, c: Canvas, b: Bounds, grey: real, g: Gabor.GaborArgs, p: nat)
    requires Bounded(m) && g.size != 0.0 && g.gamma >= 0.0 && b.low <= grey <= b.high
    requires 0.0 <= g.contrast <= 1.0 && p < Pixels(c)
    ensures Abs(Gabor.Pixel(m, c, b, grey, g, p) - grey) <= Amplitude(g.contrast, b, grey)
  {
    var (u, v) := Rotate(m, g.orientation, PixelX(c, p) - g.x, PixelY(c, p) - g.y);
    var t := Gabor.Envelope(m, g, u, v) * Gabor.Grating(m, g, u);
    Gabor.PatternBounded(m, g, u, v);
    AmplitudeFits(g.contrast, b, grey);
    var amp := Amplitude(g.contrast, b, grey);
    assert Gabor.Pixel(m, c, b, grey, g, p) - grey == amp * t;
    assert amp * t <= amp by {
      MulNonNegative(amp, 1.0 - t);
    }
    assert -amp <= amp * t by {
      MulNonNegative(amp, t + 1.0);
    }
  }

  /** With both contrasts 0 every pixel is twice the grey level. */
  lemma ZeroContrastsIsDoubleGrey(m: Math, c: Canvas, b: Bounds, grey: real, a: PlaidArgs)
    requires a.size != 0.0 && a.contrastPreferred == 0.0 && a.contrastOrthogonal == 0.0
    ensures Render(m, c, b, grey, a) == Ok(seq(Pixels(c), p => 2.0 * grey))
  {
    Gabor.ZeroContrastIsGrey(m, c, b, grey, Preferred(a));
    Gabor.ZeroContrastIsGrey(m, c, b, grey, Orthogonal(a));
    var img := Render(m, c, b, grey, a).value;
    assert img == seq(Pixels(c), p => 2.0 * grey);
  }

  /** With orthogonal contrast 0 the plaid is the preferred Gabor raised by one more grey level. */
  lemma OrthogonalOffIsGabor(m: Math, c: Canvas, b: Bounds, grey: real, a: PlaidArgs)
    requires a.size != 0.0 && a.contrastOrthogonal == 0.0
    ensures Render(m, c, b, grey, a).Ok? && Gabor.Render(m, c, b, grey, Preferred(a)).Ok?
    ensures forall p :: 0 <= p < Pixels(c) ==>
      Render(m, c, b, grey, a).value[p] == Gabor.Render(m, c, b, grey, Preferred(a)).value[p] + grey
  {
    Gabor.ZeroContrastIsGrey(m, c, b, grey, Orthogonal(a));
  }

  /** `contrast` is not one of the plaid's own keywords. */
  lemma ContrastNotAKeyword()
    ensures "contrast" !in PlaidNames
  {
  }

  /** Keywords that bind to the eight values and hold no `contrast` draw the formula on those values. */
  lemma StimulusOfBound(m: Math, s: PlaidsSet, kw: map<string, Value>, vals: seq<Value>)
    requires Bind(kw, PlaidNames) == Ok(vals) && "contrast" !in kw
    ensures |vals| == |PlaidNames| && Stimulus(m, s, kw) == Draw(m, s, vals)
  {
  }
}
