/**
 * The pixel grid every stimulus is drawn on, the rotation of the offsets from
 * the stimulus location, and the contrast-to-amplitude rule shared by the
 * Gabor, Plaid, Difference-of-Gaussians and Center-Surround formulas.
 */
module Canvas {
  import opened Numerics
  import Arith

  /** `canvas_size = [width, height]`. */
  datatype Canvas = Canvas(width: nat, height: nat)

  /**
   * An image: `height` rows of `width` pixels, flattened row by row (the
   * layout `np.meshgrid` + `flatten` produce and `reshape` undoes).
   */
  type Image = seq<real>

  /** `pixel_boundaries = [lower value, upper value]`. */
  datatype Bounds = Bounds(low: real, high: real)

  function Pixels(c: Canvas): nat
  {
    c.width * c.height
  }

  /** The column (x coordinate) of flat pixel p. */
  function PixelX(c: Canvas, p: nat): real
    requires p < Pixels(c)
  {
    (p % c.width) as real
  }

  /** The row (y coordinate) of flat pixel p. */
  function PixelY(c: Canvas, p: nat): real
    requires p < Pixels(c)
  {
    (p / c.width) as real
  }

  /** Pixel (x, y) of the canvas sits at flat position y * width + x, and only there. */
  lemma PixelAt(c: Canvas, x: nat, y: nat)
    requires x < c.width && y < c.height
    ensures y * c.width + x < Pixels(c)
    ensures PixelX(c, y * c.width + x) == x as real && PixelY(c, y * c.width + x) == y as real
  {
    Arith.MulAddBound(y, x, c.height, c.width);
    assert c.height * c.width == Pixels(c);
    Arith.DivModUnique(y * c.width + x, y, x, c.width);
  }

  /**
   * The rotation matrix R = [[cos, -sin], [sin, cos]] applied to the offset
   * (x, y), as `R.dot(coords)` computes it for every pixel.
   */
  function Rotate(m: Math, angle: real, x: real, y: real): (real, real)
  {
    (m.cos(angle) * x - m.sin(angle) * y, m.sin(angle) * x + m.cos(angle) * y)
  }

  /** With cos^2 + sin^2 = 1 a rotation keeps the squared distance from the location. */
  lemma RotationKeepsRadius(m: Math, angle: real, x: real, y: real)
    requires Pythagorean(m)
    ensures Sq(Rotate(m, angle, x, y).0) + Sq(Rotate(m, angle, x, y).1) == Sq(x) + Sq(y)
  {
    var c, s := m.cos(angle), m.sin(angle);
    assert c * c + s * s == 1.0;
    calc {
      (c * x - s * y) * (c * x - s * y) + (s * x + c * y) * (s * x + c * y);
      (c * c + s * s) * (x * x) + (c * c + s * s) * (y * y);
      x * x + y * y;
    }
  }

  /**
   * The amplitude of a grating of the given contrast:
   * `contrast * min(|low - grey|, |high - grey|)`.
   */
  function Amplitude(contrast: real, b: Bounds, grey: real): real
  {
    contrast * Min(Abs(b.low - grey), Abs(b.high - grey))
  }

  /**
   * For a contrast in [0, 1] and a grey level inside the boundaries, the
   * amplitude is non-negative and grey +/- amplitude stays within the
   * boundaries; a contrast of 1 reaches the nearer boundary.
   */
  lemma AmplitudeFits(contrast: real, b: Bounds, grey: real)
    requires 0.0 <= contrast <= 1.0 && b.low <= grey <= b.high
    ensures 0.0 <= Amplitude(contrast, b, grey)
    ensures b.low <= grey - Amplitude(contrast, b, grey) && grey + Amplitude(contrast, b, grey) <= b.high
    ensures contrast == 1.0 ==> grey - Amplitude(contrast, b, grey) == b.low || grey + Amplitude(contrast, b, grey) == b.high
  {
    var d := Min(Abs(b.low - grey), Abs(b.high - grey));
    assert 0.0 <= d <= grey - b.low && d <= b.high - grey;
    assert contrast * d <= 1.0 * d by {
      assert (1.0 - contrast) * d >= 0.0;
    }
  }

  /**
   * A pattern with values in [-1, 1], scaled by the amplitude and added to the
   * grey level, stays within the boundaries.
   */
  lemma ModulationFits(contrast: real, b: Bounds, grey: real, t: real)
    requires 0.0 <= contrast <= 1.0 && b.low <= grey <= b.high && -1.0 <= t <= 1.0
    ensures b.low <= Amplitude(contrast, b, grey) * t + grey <= b.high
  {
    var a := Amplitude(contrast, b, grey);
    AmplitudeFits(contrast, b, grey);
    assert a * t <= a by {
      assert a * (1.0 - t) >= 0.0;
    }
    assert -a <= a * t by {
      assert a * (t + 1.0) >= 0.0;
    }
  }
}
