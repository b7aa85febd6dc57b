/**
 * `CenterSurround`: a grating inside a disk (the center) and another grating
 * inside an annulus around it (the surround), each masked by a hard
 * threshold on the rotated distance from the location. Unlike the other
 * sets, its `stimulus` takes no extra keywords and adds no grey level.
 */
module CenterSurround {
  import opened Results
  import opened Numerics
  import opened ParameterSpace
  import opened Canvas
  import opened Configuration

  /**
   * The fields the constructor stores. `relativeSf` is stored but never read:
   * this set keeps the base `params_from_idx`.
   */
  datatype CenterSurroundSet = CenterSurroundSet(
    canvas: Canvas,
    locations: seq<Value>,
    sizesTotal: seq<real>,
    sizesCenter: seq<real>,
    sizesSurround: seq<real>,
    contrastsCenter: seq<real>,
    contrastsSurround: seq<real>,
    orientationsCenter: seq<real>,
    orientationsSurround: seq<real>,
    spatialFrequencies: seq<real>,
    phasesCenter: seq<real>,
    phasesSurround: seq<real>,
    greyLevel: real,
    bounds: Bounds,
    relativeSf: bool)

  /** The constructor: explicit locations or the grid, spread orientations and phases, default boundaries. */
  method Init(canvas: Canvas, cr: CenterRange, sizesTotal: seq<real>, sizesCenter: seq<real>, sizesSurround: seq<real>,
              contrastsCenter: seq<real>, contrastsSurround: seq<real>, orientationsCenter: AngleSpec,
              orientationsSurround: AngleSpec, spatialFrequencies: seq<real>, phasesCenter: AngleSpec,
              phasesSurround: AngleSpec, greyLevel: real, pixelBoundaries: Option<Bounds>,
              locations: Option<seq<Value>>, relativeSf: bool)
    returns (s: CenterSurroundSet)
    ensures s.locations == if locations.Some? then locations.value else Grid(cr)
    ensures s.orientationsCenter == Orientations(orientationsCenter)
    ensures s.orientationsSurround == Orientations(orientationsSurround)
    ensures s.phasesCenter == Phases(phasesCenter) && s.phasesSurround == Phases(phasesSurround)
    ensures s.bounds == PixelBoundaries(pixelBoundaries) && s.canvas == canvas && s.greyLevel == greyLevel
    ensures s.sizesTotal == sizesTotal && s.sizesCenter == sizesCenter && s.sizesSurround == sizesSurround
    ensures s.contrastsCenter == contrastsCenter && s.contrastsSurround == contrastsSurround
    ensures s.spatialFrequencies == spatialFrequencies && s.relativeSf == relativeSf
  {
    var locs := ResolveLocations(cr, locations);
    s := CenterSurroundSet(canvas, locs, sizesTotal, sizesCenter, sizesSurround, contrastsCenter, contrastsSurround,
                           Orientations(orientationsCenter), Orientations(orientationsSurround), spatialFrequencies,
                           Phases(phasesCenter), Phases(phasesSurround), greyLevel,
                           PixelBoundaries(pixelBoundaries), relativeSf);
  }

  /** The keywords of `params()`, in declared order; they are also the whole signature of `stimulus`. */
  const CenterSurroundNames: seq<string> := [
    "location", "size_total", "size_center", "size_surround", "contrast_center", "contrast_surround",
    "orientation_center", "orientation_surround", "spatial_frequency", "phase_center", "phase_surround"]

  /** `params()`: the eleven lists, each with its keyword. */
  function Params(s: CenterSurroundSet): (ps: seq<Descriptor>)
    ensures Names(ps) == CenterSurroundNames
    ensures ps[0].values == s.locations
    ensures forall k :: 1 <= k < |ps| ==> forall v :: v in ps[k].values ==> v.Scalar?
  {
    [ Descriptor(s.locations, "location"),
      Descriptor(Scalars(s.sizesTotal), "size_total"),
      Descriptor(Scalars(s.sizesCenter), "size_center"),
      Descriptor(Scalars(s.sizesSurround), "size_surround"),
      Descriptor(Scalars(s.contrastsCenter), "contrast_center"),
      Descriptor(Scalars(s.contrastsSurround), "contrast_surround"),
      Descriptor(Scalars(s.orientationsCenter), "orientation_center"),
      Descriptor(Scalars(s.orientationsSurround), "orientation_surround"),
      Descriptor(Scalars(s.spatialFrequencies), "spatial_frequency"),
      Descriptor(Scalars(s.phasesCenter), "phase_center"),
      Descriptor(Scalars(s.phasesSurround), "phase_surround") ]
  }

  /** The arguments of `stimulus`, each of the kind the formula uses. */
  datatype CenterSurroundArgs = CenterSurroundArgs(
    x: real, y: real, sizeTotal: real, sizeCenter: real, sizeSurround: real,
    contrastCenter: real, contrastSurround: real, orientationCenter: real, orientationSurround: real,
    spatialFrequency: real, phaseCenter: real, phaseSurround: real)

  /** The bound values, in signature order, as formula arguments. */
  function Arguments(vals: seq<Value>): (r: Result<CenterSurroundArgs>)
    requires |vals| == |CenterSurroundNames|
    ensures r.Ok? <==> vals[0].Point? && forall i :: 1 <= i < |vals| ==> vals[i].Scalar?
    ensures r.Ok? ==> r.value == CenterSurroundArgs(vals[0].x, vals[0].y, vals[1].r, vals[2].r, vals[3].r,
                                                    vals[4].r, vals[5].r, vals[6].r, vals[7].r, vals[8].r,
                                                    vals[9].r, vals[10].r)
  {
    var loc :- AsPoint(vals[0], "location");
    var st :- AsScalar(vals[1], "size_total");
    var sc :- AsScalar(vals[2], "size_center");
    var ss :- AsScalar(vals[3], "size_surround");
    var cc :- AsScalar(vals[4], "contrast_center");
    var cs :- AsScalar(vals[5], "contrast_surround");
    var oc :- AsScalar(vals[6], "orientation_center");
    var os :- AsScalar(vals[7], "orientation_surround");
    var sf :- AsScalar(vals[8], "spatial_frequency");
    var pc :- AsScalar(vals[9], "phase_center");
    var ps :- AsScalar(vals[10], "phase_surround");
    Ok(CenterSurroundArgs(loc.0, loc.1, st, sc, ss, cc, cs, oc, os, sf, pc, ps))
  }

  /** A boolean mask entry as the number numpy multiplies with: 1 or 0. */
  function Indicator(b: bool): (r: real)
    ensures b <==> r == 1.0
    ensures !b <==> r == 0.0
  {
    if b then 1.0 else 0.0
  }

  /** The offset of pixel p from the location, rotated by an angle. */
  function Rotated(m: Math, c: Canvas, a: CenterSurroundArgs, angle: real, p: nat): (real, real)
    requires p < Pixels(c)
  {
    Rotate(m, angle, PixelX(c, p) - a.x, PixelY(c, p) - a.y)
  }

  /** `norm_xy`: the length of a rotated offset. */
  function Norm(m: Math, uv: (real, real)): real
  {
    m.sqrt(Sq(uv.0) + Sq(uv.1))
  }

  /** `envelope_center`: within `size_center * size_total` of the location, measured in the center's frame. */
  predicate InDisk(m: Math, c: Canvas, a: CenterSurroundArgs, p: nat)
    requires p < Pixels(c)
  {
    Norm(m, Rotated(m, c, a, a.orientationCenter, p)) <= a.sizeCenter * a.sizeTotal
  }

  /** `envelope_surround`: beyond `size_surround * size_total` and within `size_total`, measured in the surround's frame. */
  predicate InAnnulus(m: Math, c: Canvas, a: CenterSurroundArgs, p: nat)
    requires p < Pixels(c)
  {
    var n := Norm(m, Rotated(m, c, a, a.orientationSurround, p));
    a.sizeSurround * a.sizeTotal < n <= a.sizeTotal
  }

  /** `np.cos(spatial_frequency * x * (2*pi) + phase)` along a rotated axis. */
  function Grating(m: Math, spatialFrequency: real, u: real, phase: real): real
  {
    m.cos(spatialFrequency * u * (2.0 * PI) + phase)
  }

  /** The center grating with its contrast, before masking. */
  function CenterGrating(m: Math, c: Canvas, b: Bounds, grey: real, a: CenterSurroundArgs, p: nat): real
    requires p < Pixels(c)
  {
    Amplitude(a.contrastCenter, b, grey) * Grating(m, a.spatialFrequency, Rotated(m, c, a, a.orientationCenter, p).0, a.phaseCenter)
  }

  /** The surround grating with its contrast, before masking. */
  function SurroundGrating(m: Math, c: Canvas, b: Bounds, grey: real, a: CenterSurroundArgs, p: nat): real
    requires p < Pixels(c)
  {
    Amplitude(a.contrastSurround, b, grey) * Grating(m, a.spatialFrequency, Rotated(m, c, a, a.orientationSurround, p).0, a.phaseSurround)
  }

  /** One pixel: each masked grating, added (the grey level is not added). */
  function Pixel(m: Math, c: Canvas, b: Bounds, grey: real, a: CenterSurroundArgs, p: nat): real
    requires p < Pixels(c)
  {
    Indicator(InDisk(m, c, a, p)) * CenterGrating(m, c, b, grey, a, p) +
    Indicator(InAnnulus(m, c, a, p)) * SurroundGrating(m, c, b, grey, a, p)
  }

  /** The center-surround image; a center larger than the surround is refused. */
  function Render(m: Math, c: Canvas, b: Bounds, grey: real, a: CenterSurroundArgs): (r: Result<Image>)
    ensures r.Ok? <==> a.sizeCenter <= a.sizeSurround
    ensures r.Err? ==> r.error == DomainError("size_center cannot be larger than size_surround")
    ensures r.Ok? ==> |r.value| == Pixels(c) && forall p :: 0 <= p < Pixels(c) ==> r.value[p] == Pixel(m, c, b, grey, a, p)
  {
    if a.sizeCenter > a.sizeSurround then Err(DomainError("size_center cannot be larger than size_surround"))
    else Ok(seq(Pixels(c), p requires 0 <= p < Pixels(c) => Pixel(m, c, b, grey, a, p)))
  }

  /** The keywords of the signature, as a set. */
  const Keywords: set<string> := set n | n in CenterSurroundNames

  /**
   * `stimulus(**kw)`: the signature has no `**kwargs`, so a keyword outside
   * it is refused before the missing ones are reported; then the image.
   */
  function Stimulus(m: Math, s: CenterSurroundSet, kw: map<string, Value>): (r: Result<Image>)
  {
    if kw.Keys - Keywords != {} then Err(UnexpectedArguments(kw.Keys - Keywords))
    else
      var vals :- Bind(kw, CenterSurroundNames);
      Draw(m, s, vals)
  }

  /** The formula applied to bound values in signature order. */
  function Draw(m: Math, s: CenterSurroundSet, vals: seq<Value>): Result<Image>
    requires |vals| == |CenterSurroundNames|
  {
    var a :- Arguments(vals);
    Render(m, s.canvas, s.bounds, s.greyLevel, a)
  }

  /** Any keyword outside the signature fails the call, whatever else is given. */
  lemma ExtraKeywordsRefused(m: Math, s: CenterSurroundSet, kw: map<string, Value>, n: string)
    requires n in kw && n !in CenterSurroundNames
    ensures Stimulus(m, s, kw).Err? && Stimulus(m, s, kw).error.UnexpectedArguments?
    ensures n in Stimulus(m, s, kw).error.names
  {
    assert n in kw.Keys - Keywords;
  }

  /** With cos^2 + sin^2 = 1 both frames measure the same distance from the location. */
  lemma NormsAgree(m: Math, c: Canvas, a: CenterSurroundArgs, p: nat)
    requires Pythagorean(m) && p < Pixels(c)
    ensures Norm(m, Rotated(m, c, a, a.orientationCenter, p)) == Norm(m, Rotated(m, c, a, a.orientationSurround, p))
  {
    RotationKeepsRadius(m, a.orientationCenter, PixelX(c, p) - a.x, PixelY(c, p) - a.y);
    RotationKeepsRadius(m, a.orientationSurround, PixelX(c, p) - a.x, PixelY(c, p) - a.y);
  }

  /**
   * Once the guard has passed (center no larger than surround) and the total
   * size is not negative, no pixel lies in both the disk and the annulus.
   */
  lemma MasksDisjoint(m: Math, c: Canvas, a: CenterSurroundArgs, p: nat)
    requires Pythagorean(m) && p < Pixels(c)
    requires a.sizeCenter <= a.sizeSurround && a.sizeTotal >= 0.0
    ensures !(InDisk(m, c, a, p) && InAnnulus(m, c, a, p))
  {
    NormsAgree(m, c, a, p);
    MulNonNegative(a.sizeSurround - a.sizeCenter, a.sizeTotal);
    assert (a.sizeSurround - a.sizeCenter) * a.sizeTotal == a.sizeSurround * a.sizeTotal - a.sizeCenter * a.sizeTotal;
  }

  /**
   * A drawn image is piecewise: the center grating in the disk, the surround
   * grating in the annulus, and 0 (not the grey level) everywhere else.
   */
  lemma RenderPiecewise(m: Math, c: Canvas, b: Bounds, grey: real, a: CenterSurroundArgs, p: nat)
    requires Pythagorean(m) && a.sizeTotal >= 0.0 && p < Pixels(c)
    requires Render(m, c, b, grey, a).Ok?
    ensures Render(m, c, b, grey, a).value[p] ==
      if InDisk(m, c, a, p) then CenterGrating(m, c, b, grey, a, p)
      else if InAnnulus(m, c, a, p) then SurroundGrating(m, c, b, grey, a, p)
      else 0.0
  {
    MasksDisjoint(m, c, a, p);
  }

  /**
   * For contrasts in [0, 1] and a grey level inside the boundaries, every
   * pixel of a drawn image lies within the larger of the two amplitudes of 0.
   */
  lemma RenderBounded(m: Math, c: Canvas, b: Bounds, grey: real, a: CenterSurroundArgs)
    requires Pythagorean(m) && Bounded(m) && a.sizeTotal >= 0.0
    requires 0.0 <= a.contrastCenter <= 1.0 && 0.0 <= a.contrastSurround <= 1.0 && b.low <= grey <= b.high
    requires Render(m, c, b, grey, a).Ok?
    ensures forall p :: 0 <= p < Pixels(c) ==>
      Abs(Render(m, c, b, grey, a).value[p]) <= Max(Amplitude(a.contrastCenter, b, grey), Amplitude(a.contrastSurround, b, grey))
  {
    forall p | 0 <= p < Pixels(c)
      ensures Abs(Pixel(m, c, b, grey, a, p)) <=
        Max(Amplitude(a.contrastCenter, b, grey), Amplitude(a.contrastSurround, b, grey))
    {
      RenderPiecewise(m, c, b, grey, a, p);
      GratingsBounded(m, c, b, grey, a, p);
    }
  }

  /** Each grating with its contrast has magnitude at most its amplitude. */
  lemma GratingsBounded(m: Math, c: Canvas, b: Bounds, grey: real, a: CenterSurroundArgs, p: nat)
    requires Bounded(m) && p < Pixels(c)
    requires 0.0 <= a.contrastCenter <= 1.0 && 0.0 <= a.contrastSurround <= 1.0 && b.low <= grey <= b.high
    ensures Abs(CenterGrating(m, c, b, grey, a, p)) <= Amplitude(a.contrastCenter, b, grey)
    ensures Abs(SurroundGrating(m, c, b, grey, a, p)) <= Amplitude(a.contrastSurround, b, grey)
  {
    CenterGratingBounded(m, c, b, grey, a, p);
    SurroundGratingBounded(m, c, b, grey, a, p);
  }

  lemma CenterGratingBounded(m: Math, c: Canvas, b: Bounds, grey: real, a: CenterSurroundArgs, p: nat)
    requires Bounded(m) && p < Pixels(c) && 0.0 <= a.contrastCenter <= 1.0 && b.low <= grey <= b.high
    ensures Abs(CenterGrating(m, c, b, grey, a, p)) <= Amplitude(a.contrastCenter, b, grey)
  {
    var u := Rotated(m, c, a, a.orientationCenter, p).0;
    assert CenterGrating(m, c, b, grey, a, p) == Amplitude(a.contrastCenter, b, grey) * Grating(m, a.spatialFrequency, u, a.phaseCenter);
    AmplitudeGratingBounded(m, a.contrastCenter, b, grey, a.spatialFrequency, u, a.phaseCenter);
  }

  lemma SurroundGratingBounded(m: Math, c: Canvas, b: Bounds, grey: real, a: CenterSurroundArgs, p: nat)
    requires Bounded(m) && p < Pixels(c) && 0.0 <= a.contrastSurround <= 1.0 && b.low <= grey <= b.high
    ensures Abs(SurroundGrating(m, c, b, grey, a, p)) <= Amplitude(a.contrastSurround, b, grey)
  {
    var u := Rotated(m, c, a, a.orientationSurround, p).0;
    assert SurroundGrating(m, c, b, grey, a, p) == Amplitude(a.contrastSurround, b, grey) * Grating(m, a.spatialFrequency, u, a.phaseSurround);
    AmplitudeGratingBounded(m, a.contrastSurround, b, grey, a.spatialFrequency, u, a.phaseSurround);
  }

  /** A grating scaled by the amplitude of a contrast in [0, 1] has magnitude at most that amplitude. */
  lemma AmplitudeGratingBounded(m: Math, contrast: real, b: Bounds, grey: real, sf: real, u: real, phase: real)
    requires Bounded(m) && 0.0 <= contrast <= 1.0 && b.low <= grey <= b.high
    ensures Abs(Amplitude(contrast, b, grey) * Grating(m, sf, u, phase)) <= Amplitude(contrast, b, grey)
  {
    AmplitudeFits(contrast, b, grey);
    ScaledCosine(Amplitude(contrast, b, grey), Grating(m, sf, u, phase));
  }

  /** A non-negative amplitude times a number in [-1, 1] has magnitude at most the amplitude. */
  lemma ScaledCosine(amp: real, t: real)
    requires amp >= 0.0 && -1.0 <= t <= 1.0
    ensures Abs(amp * t) <= amp
  {
    MulNonNegative(amp, 1.0 - t);
    MulNonNegative(amp, t + 1.0);
  }

  /** With both contrasts 0 a drawn image is 0 everywhere. */
  lemma ZeroContrastsIsBlank(m: Math, c: Canvas, b: Bounds, grey: real, a: CenterSurroundArgs)
    requires a.contrastCenter == 0.0 && a.contrastSurround == 0.0 && Render(m, c, b, grey, a).Ok?
    ensures Render(m, c, b, grey, a) == Ok(seq(Pixels(c), p => 0.0))
  {
    var img := Render(m, c, b, grey, a).value;
    assert Amplitude(a.contrastCenter, b, grey) == 0.0 && Amplitude(a.contrastSurround, b, grey) == 0.0;
    assert img == seq(Pixels(c), p => 0.0);
  }

  /** Keywords that all belong to the signature and bind to the eleven values draw the formula on those values. */
  lemma StimulusOfBound(m: Math, s: CenterSurroundSet, kw: map<string, Value>, vals: seq<Value>)
    requires Bind(kw, CenterSurroundNames) == Ok(vals) && forall n :: n in kw ==> n in CenterSurroundNames
    ensures |vals| == |CenterSurroundNames| && Stimulus(m, s, kw) == Draw(m, s, vals)
  {
    assert kw.Keys - Keywords == {};
  }
}
