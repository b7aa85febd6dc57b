# insilico-stimuli in Dafny

This is a model of `insilico_stimuli/stimuli.py`, the stimulus-generation core
of insilico-stimuli. A stimulus set holds a list of candidate values for each
of its named parameters. Its parameter combinations are enumerated in
row-major order by a flat index, as `np.unravel_index` decodes it. Each
combination is passed by keyword to the set's `stimulus` method, which draws
a grey-level image on a canvas. `images()` draws every combination;
`image_batches(batch_size)` yields them in consecutive slices.

The model has one module per concern:

- `ParameterSpace` holds the parameter descriptors `(values, name)`,
  `num_params`, row-major unravelling and its inverse, `params_from_idx`,
  and the keyword dictionary with Python's binding of keyword arguments to
  a signature.
- `Batching` holds the `np.arange` / `np.minimum` batch bounds and the
  comprehensions that draw a range of indices. Drawing stops at the first
  exception, as in Python.
- `Configuration` holds the constructor logic shared by the four sets: the
  default location grid over `center_range`, orientations and phases spread
  evenly from a count, eccentricities turned into gammas, and the default
  pixel boundaries.
- `Canvas` holds the pixel layout of `np.meshgrid` flattened row by row, the
  rotation matrix, and the contrast amplitude
  `contrast * min(|lo - grey|, |hi - grey|)`.
- `Gabor`, `Plaids`, `DiffOfGaussians` and `CenterSurround` each hold one
  subclass: constructor, `params()`, `stimulus(**kw)` and the pixel formula.
- `Stimuli` holds the base class `StimuliSet` as a datatype with one variant
  per subclass. It dispatches `params`, `params_from_idx`,
  `params_dict_from_idx` and `stimulus_from_idx`, and it has the methods
  `images` and `image_batches`.

The constructors run from top to bottom without mutating anything
afterwards. They are modelled as methods that return an immutable record.
The two loops of the source are imperative Dafny with invariants:

- the location-grid comprehension is `Configuration.CenterGrid`;
- the batch generator is `Batching.Batches`.

`cos`, `sin`, `exp` and `sqrt` are parameters of type `Numerics.Math`. Facts
about them are stated only where a property needs them:

- `Pythagorean`: cos² + sin² = 1.
- `Bounded`: the cosine lies in [-1, 1], and exp of a non-positive number
  lies in [0, 1].

Nothing is assumed about `sqrt`. The centre-surround properties only need
both rotations to feed it the same argument.

Python exceptions and non-finite numpy results are `Results.Error` values.
No precondition excludes them:

| Error value | Stands for |
|---|---|
| `IndexOutOfRange` | `np.unravel_index` out of bounds |
| `ZeroDivision` | the float `/=` of `relative_sf` |
| `DomainError` | the two `ValueError`s |
| `EmptyArray` | `.min()` of an empty canvas |
| `UnexpectedArguments` | a keyword outside a signature without `**kwargs` |
| `DuplicateArgument` | `contrast` given twice to the Gabor call inside Plaids |
| `MissingArgument` | a keyword the signature requires but was not given |
| `WrongKind` | a location that is not a point, or a scalar that is a point |
| `ZeroStep` | `np.arange` with step 0 |
| `NonFinite` | a numpy division by zero that leaves inf or nan in the image |

## Model

| member | source | states |
|---|---|---|
| ParameterSpace.NumParams | insilico_stimuli/stimuli.py:16-21 | one count per parameter, equal to the length of that parameter's value list |
| ParameterSpace.Unravel | insilico_stimuli/stimuli.py:36-37 | every digit of the decoded index is below its radix |
| ParameterSpace.Ravel | insilico_stimuli/stimuli.py:36-37 | the flat index of in-range digits lies below the product of the radices |
| ParameterSpace.RavelUnravel | insilico_stimuli/stimuli.py:36-37 | re-encoding the digits of an in-range index gives the index back |
| ParameterSpace.UnravelRavel | insilico_stimuli/stimuli.py:36-37 | decoding the flat index of in-range digits gives the digits back |
| ParameterSpace.UnravelInjective | insilico_stimuli/stimuli.py:36-37 | two in-range indices with the same digits are equal |
| ParameterSpace.UnravelDigit | insilico_stimuli/stimuli.py:36-37 | digit k is the index divided by the product of the later radices, taken modulo radix k (C order) |
| ParameterSpace.FirstDigitSlowest | insilico_stimuli/stimuli.py:36-37 | the first digit is the index divided by the product of all later radices |
| ParameterSpace.LastDigitFastest | insilico_stimuli/stimuli.py:36-37 | the last digit is the index modulo the last radix |
| ParameterSpace.RavelOrder | insilico_stimuli/stimuli.py:36-37 | flat indices compare exactly as their digit sequences compare lexicographically |
| ParameterSpace.UnravelOrder | insilico_stimuli/stimuli.py:36-37 | i < j exactly when the digits of i precede the digits of j lexicographically, so combinations are enumerated in lexicographic order |
| ParameterSpace.Product | insilico_stimuli/stimuli.py:71 | `np.prod` of the counts: 1 for no counts, else the product of the earlier counts times the last; its meaning is stated by ProductPositive, RavelUnravel and ChunkCount |
| ParameterSpace.Total | insilico_stimuli/stimuli.py:71 | the number of combinations, the product of `num_params()`; ParamsFromIdx succeeds exactly below it |
| ParameterSpace.RowMajorDigit | insilico_stimuli/stimuli.py:37 | the closed form of digit k, (idx div product of the later counts) mod count k; UnravelDigit proves that Unravel yields it |
| ParameterSpace.ProductPositive | insilico_stimuli/stimuli.py:71 | the number of combinations is positive exactly when no parameter has an empty value list |
| ParameterSpace.ParamsFromIdx | insilico_stimuli/stimuli.py:26-39 | succeeds exactly for 0 <= idx < total, failing with IndexOutOfRange(idx) otherwise; entry i is the value list of parameter i at digit i of idx |
| ParameterSpace.ParamsFromIdxOnto | insilico_stimuli/stimuli.py:26-39 | every choice of one value per parameter is the combination of some index in range |
| ParameterSpace.ParamsFromIdxInjective | insilico_stimuli/stimuli.py:26-39 | when each value list has no repeats, different indices give different combinations |
| ParameterSpace.Names | insilico_stimuli/stimuli.py:50 | the keywords are the parameters' names in order |
| ParameterSpace.Zip | insilico_stimuli/stimuli.py:50 | the keys of the dictionary are exactly the names |
| ParameterSpace.ZipKeys | insilico_stimuli/stimuli.py:50 | a keyword is in the dictionary exactly when it is one of the names |
| ParameterSpace.ZipLookup | insilico_stimuli/stimuli.py:50 | the dictionary maps name i to value i unless a later name repeats it (later entries win) |
| ParameterSpace.Bind | insilico_stimuli/stimuli.py:59 | keyword binding succeeds exactly when every signature name is given, and parameter i receives the value of name i |
| ParameterSpace.BindIgnoresExtra | insilico_stimuli/stimuli.py:180 | with every signature name given, extra keywords swallowed by `**kwargs` do not change the bound values |
| ParameterSpace.BindZip | insilico_stimuli/stimuli.py:59 | binding the zipped dictionary of distinct names gives the values back |
| ParameterSpace.AsScalar | insilico_stimuli/stimuli.py:202-209 | a scalar parameter that is a point is refused with WrongKind |
| ParameterSpace.AsPoint | insilico_stimuli/stimuli.py:194-195 | a location is usable exactly when it is a point, and yields its two coordinates |
| Batching.Chunks | insilico_stimuli/stimuli.py:72-73 | the batch ranges `[s, min(s + batch_size, total))` for s in `np.arange(0, total, batch_size)`; ChunkAt, ChunkCount, FullChunks, LastChunk and ChunksCover state their shape |
| Batching.ChunkAt | insilico_stimuli/stimuli.py:72-73 | batch i starts at i * batch_size and ends at the smaller of the next start and the total |
| Batching.ChunkCount | insilico_stimuli/stimuli.py:72 | there are ceil(total / batch_size) batches |
| Batching.FullChunks | insilico_stimuli/stimuli.py:72-73 | every batch but the last holds exactly batch_size indices |
| Batching.LastChunk | insilico_stimuli/stimuli.py:68-73 | the last batch ends at the total and holds total mod batch_size indices, or a full batch when that is 0 |
| Batching.ChunksCover | insilico_stimuli/stimuli.py:72-75 | the batches, laid end to end, are exactly the indices 0 .. total-1 in order |
| Batching.Indices | insilico_stimuli/stimuli.py:75 | `range(lo, hi)` lists hi - lo consecutive indices from lo |
| Batching.Collect | insilico_stimuli/stimuli.py:74-75 | a successful comprehension over a range yields one image per index |
| Batching.CollectMeaning | insilico_stimuli/stimuli.py:74-75 | the comprehension succeeds exactly when every index draws, element k is the image of index lo + k, and a failure is the exception of the first index that fails |
| Batching.CollectSplit | insilico_stimuli/stimuli.py:72-75 | drawing a range is drawing its two halves one after the other, so a batch split loses and reorders nothing |
| Batching.CollectRange | insilico_stimuli/stimuli.py:74-75 | the loop that draws lo .. hi-1 and stops at the first exception yields the comprehension's result |
| Batching.Batches | insilico_stimuli/stimuli.py:61-76 | batch k holds the images of chunk k; without a failure every chunk is yielded and the batches concatenate to the images of all indices; on a failure every chunk before the first failing one is yielded, and the failure is the exception of the first failing index of that chunk and of the whole range |
| Configuration.GridColumn | insilico_stimuli/stimuli.py:129-130 | the inner comprehension lists (x, y) for y in the y range, in order |
| Configuration.Grid | insilico_stimuli/stimuli.py:129-130 | the default locations, x in the outer loop and y in the inner loop; GridAt, GridHolds and GridWithin state their order and extent |
| Configuration.GridAt | insilico_stimuli/stimuli.py:129-130 | the default grid has width * height locations, and location i is (x start + i div height, y start + i mod height) |
| Configuration.GridHolds | insilico_stimuli/stimuli.py:129-130 | every integer point of the centre range is on the grid |
| Configuration.GridWithin | insilico_stimuli/stimuli.py:129-130 | every grid location is an integer point inside the centre range |
| Configuration.CenterGrid | insilico_stimuli/stimuli.py:129-130 | the nested loops build the default grid |
| Configuration.ResolveLocations | insilico_stimuli/stimuli.py:128-132 | given locations are kept; otherwise the default grid is used |
| Configuration.Spread | insilico_stimuli/stimuli.py:144-152 | a list is kept as given; a count k yields max(k, 0) angles |
| Configuration.Orientations | insilico_stimuli/stimuli.py:144-147 | orientations: a given list, or a count spread over [0, pi); SpreadRange, SpreadSteps and SpreadIncreasing state the spread |
| Configuration.Phases | insilico_stimuli/stimuli.py:149-152 | phases: a given list, or a count spread over [0, 2 pi); SpreadRange, SpreadSteps and SpreadIncreasing state the spread |
| Configuration.SpreadRange | insilico_stimuli/stimuli.py:144-152 | the angles from a count start at 0 and stay below pi (orientations) or 2 pi (phases) |
| Configuration.SpreadSteps | insilico_stimuli/stimuli.py:144-152 | consecutive angles from a count are span / k apart |
| Configuration.SpreadIncreasing | insilico_stimuli/stimuli.py:144-152 | the angles from a count strictly increase |
| Configuration.Gammas | insilico_stimuli/stimuli.py:154-157 | no eccentricities give one gamma; otherwise there is one gamma per eccentricity |
| Configuration.GammaRange | insilico_stimuli/stimuli.py:157 | for an eccentricity in [0, 1], gamma = 1 - e² lies in [0, 1]; it is 1 exactly for a circle and 0 exactly for e = 1 |
| Configuration.GammasRange | insilico_stimuli/stimuli.py:154-157 | the default gamma list is [1], and each given eccentricity e in [0, 1] yields 1 - e² in [0, 1] |
| Configuration.PixelBoundaries | insilico_stimuli/stimuli.py:139-142 | the default boundaries are [-1, 1]; given ones are kept |
| Canvas.Rotate | insilico_stimuli/stimuli.py:196-200 | the rotation matrix [[cos, -sin], [sin, cos]] applied to a pixel's offset from the location; RotationKeepsRadius states that it keeps the radius |
| Canvas.Amplitude | insilico_stimuli/stimuli.py:207-208 | `contrast * min(abs(low - grey), abs(high - grey))`, shared by all four sets (also at lines 430-431 and 583-586); AmplitudeFits and ModulationFits state what it guarantees |
| Canvas.PixelX | insilico_stimuli/stimuli.py:194-199 | the x coordinate of a flattened meshgrid pixel, its position mod the width; PixelAt states the layout |
| Canvas.PixelY | insilico_stimuli/stimuli.py:194-199 | the y coordinate of a flattened meshgrid pixel, its position div the width; PixelAt states the layout |
| Canvas.PixelAt | insilico_stimuli/stimuli.py:194-199 | pixel (x, y) of the flattened meshgrid sits at y * width + x, with those coordinates |
| Canvas.RotationKeepsRadius | insilico_stimuli/stimuli.py:196-200 | the rotation matrix keeps the distance to the stimulus location |
| Canvas.AmplitudeFits | insilico_stimuli/stimuli.py:207-208 | for a contrast in [0, 1], grey ± amplitude stays within the pixel boundaries, and full contrast reaches the nearer boundary |
| Canvas.ModulationFits | insilico_stimuli/stimuli.py:207-209 | amplitude * t + grey stays within the boundaries for every t in [-1, 1] |
| Numerics.MinOf | insilico_stimuli/stimuli.py:428 | `.min()` is attained and below every pixel |
| Numerics.MaxOf | insilico_stimuli/stimuli.py:428 | `.max()` is attained and above every pixel |
| Numerics.MaxAbsAttained | insilico_stimuli/stimuli.py:428-429 | the largest magnitude bounds every pixel and is attained by one |
| Numerics.MinMaxIsMaxAbs | insilico_stimuli/stimuli.py:428-429 | max(abs(min), abs(max)) is the largest magnitude among the pixels |
| Gabor.Init | insilico_stimuli/stimuli.py:125-159 | the constructor keeps the given lists and derives locations, orientations, phases, gammas and boundaries by their rules |
| Gabor.Params | insilico_stimuli/stimuli.py:161-170 | the seven parameters are named as `stimulus` expects; size and spatial frequency are scalars |
| Gabor.RelativeSfOnlyScalesFrequency | insilico_stimuli/stimuli.py:172-178 | with relative_sf, only the spatial frequency changes, divided by the size, and a zero size fails with ZeroDivision; without it the base decomposition is returned |
| Gabor.RelativeParamsFromIdx | insilico_stimuli/stimuli.py:172-178 | the base decomposition, then with `relative_sf` entry 2 divided by entry 1, ZeroDivision on a zero size; RelativeSfOnlyScalesFrequency states both cases |
| Gabor.ParamsFromIdx | insilico_stimuli/stimuli.py:172-178 | the in-place `/=` on the decoded list yields the relative decomposition |
| Gabor.Arguments | insilico_stimuli/stimuli.py:180 | the bound values are accepted exactly when the location is a point and the rest are scalars |
| Gabor.Envelope | insilico_stimuli/stimuli.py:202 | the Gaussian envelope exp(-(u² + gamma v²) / (2 (size/4)²)); EnvelopeAtOrigin and PatternBounded state its value at the centre and its range |
| Gabor.Grating | insilico_stimuli/stimuli.py:203 | cos(2 pi f u + phase) along the rotated axis; PatternBounded bounds it |
| Gabor.Pixel | insilico_stimuli/stimuli.py:194-209 | one Gabor pixel, amplitude * envelope * grating + grey at the rotated offset; RenderWithinBounds, ZeroContrastIsGrey and PeakAtLocation state its properties |
| Gabor.Draw | insilico_stimuli/stimuli.py:194-211 | the bound values turned into typed arguments and drawn; Stimuli.StimulusOfZip reaches it from a keyword dictionary |
| Gabor.Stimulus | insilico_stimuli/stimuli.py:180-211 | `stimulus(**kw)`: bind the seven keywords and draw; ExtraKeywordsIgnored and Stimuli.StimulusOfZip state its behaviour |
| Gabor.Render | insilico_stimuli/stimuli.py:194-211 | a zero size is non-finite; otherwise one pixel per canvas point, each amplitude * envelope * grating + grey |
| Gabor.ExtraKeywordsIgnored | insilico_stimuli/stimuli.py:180 | keywords beyond the signature do not change the stimulus |
| Gabor.PatternBounded | insilico_stimuli/stimuli.py:202-204 | envelope * grating lies in [-1, 1] for a non-negative gamma |
| Gabor.RenderWithinBounds | insilico_stimuli/stimuli.py:202-209 | for a contrast in [0, 1] and grey inside the boundaries, every pixel lies within the boundaries |
| Gabor.ZeroContrastIsGrey | insilico_stimuli/stimuli.py:207-209 | zero contrast draws a uniformly grey image |
| Gabor.PeakAtLocation | insilico_stimuli/stimuli.py:194-209 | at the stimulus location the envelope is exp(0), and the pixel is amplitude * cos(phase) + grey |
| Gabor.EnvelopeAtOrigin | insilico_stimuli/stimuli.py:202 | the envelope at zero offset is exp(0) |
| Plaids.Init | insilico_stimuli/stimuli.py:246-282 | the constructor keeps the given lists and derives locations, orientations, phases, gammas and boundaries by their rules |
| Plaids.Params | insilico_stimuli/stimuli.py:284-294 | the eight parameters are named as `stimulus` expects; the locations come first |
| Plaids.Arguments | insilico_stimuli/stimuli.py:296-297 | the bound values are accepted exactly when the location is a point and the rest are scalars |
| Plaids.Preferred | insilico_stimuli/stimuli.py:312-321 | the first Gabor takes the preferred contrast and every other argument unchanged |
| Plaids.Orthogonal | insilico_stimuli/stimuli.py:323-332 | the second Gabor takes the orthogonal contrast and the orientation turned by pi/2 |
| Plaids.Draw | insilico_stimuli/stimuli.py:312-336 | the bound values turned into typed arguments and drawn as a plaid; StimulusOfBound reaches it from a keyword dictionary |
| Plaids.Stimulus | insilico_stimuli/stimuli.py:296-336 | `stimulus(**kw)`: bind the eight keywords, fail with DuplicateArgument on a `contrast` keyword, then draw; ExtraKeywords and StimulusOfBound state its behaviour |
| Plaids.Render | insilico_stimuli/stimuli.py:312-336 | the plaid is the pixelwise sum of the two Gabors, failing as they do on a zero size |
| Plaids.ExtraKeywords | insilico_stimuli/stimuli.py:296-332 | extra keywords other than `contrast` do not change the plaid; a `contrast` keyword is a duplicate argument of the inner call |
| Plaids.RenderAroundDoubleGrey | insilico_stimuli/stimuli.py:312-336 | every plaid pixel lies within the sum of the two amplitudes of twice the grey level |
| Plaids.ZeroContrastsIsDoubleGrey | insilico_stimuli/stimuli.py:312-336 | with both contrasts zero the plaid is uniformly twice the grey level |
| Plaids.OrthogonalOffIsGabor | insilico_stimuli/stimuli.py:312-336 | with zero orthogonal contrast the plaid is the preferred Gabor plus grey |
| Plaids.StimulusOfBound | insilico_stimuli/stimuli.py:296-336 | keywords without `contrast` that bind to the signature draw the plaid of the bound values |
| DiffOfGaussians.Init | insilico_stimuli/stimuli.py:360-378 | the constructor keeps the given lists and derives locations and boundaries by their rules |
| DiffOfGaussians.Params | insilico_stimuli/stimuli.py:380-387 | the five parameters are named as `stimulus` expects; the locations come first and the rest are scalars |
| DiffOfGaussians.Arguments | insilico_stimuli/stimuli.py:402 | the bound values are accepted exactly when the location is a point and the rest are scalars |
| DiffOfGaussians.SurroundScaleNonZero | insilico_stimuli/stimuli.py:423 | the surround scale is non-zero once the guard has passed and the size is non-zero |
| DiffOfGaussians.Density | insilico_stimuli/stimuli.py:389-400 | `gaussian_density`: exp(-r² / (2 scale²)) at a pixel's distance r from the location; Raw combines the centre and surround densities |
| DiffOfGaussians.Raw | insilico_stimuli/stimuli.py:418-425 | the centre-minus-surround array has one entry per canvas point |
| DiffOfGaussians.CurrentAmplitude | insilico_stimuli/stimuli.py:428-429 | the current amplitude is the largest magnitude of the raw array |
| DiffOfGaussians.Scaled | insilico_stimuli/stimuli.py:434 | one rescaled pixel, `contrast_scaling * center_surround + grey_level`; ScaledDeviation bounds its distance from grey |
| DiffOfGaussians.Rescale | insilico_stimuli/stimuli.py:428-434 | an all-zero raw array is non-finite; otherwise each pixel is scaled by required / current and offset by grey |
| DiffOfGaussians.Render | insilico_stimuli/stimuli.py:415-434 | the surround guard fails first with its message, then an empty canvas, then a zero size; otherwise the rescaled difference of Gaussians |
| DiffOfGaussians.Draw | insilico_stimuli/stimuli.py:415-436 | the bound values turned into typed arguments and drawn; Stimuli.StimulusOfZip reaches it from a keyword dictionary |
| DiffOfGaussians.Stimulus | insilico_stimuli/stimuli.py:402-436 | `stimulus(**kw)`: bind the five keywords and draw; ExtraKeywordsIgnored and Stimuli.StimulusOfZip state its behaviour |
| DiffOfGaussians.ExtraKeywordsIgnored | insilico_stimuli/stimuli.py:402 | keywords beyond the signature do not change the stimulus |
| DiffOfGaussians.RescaleReachesAmplitude | insilico_stimuli/stimuli.py:428-434 | after rescaling, the largest deviation from grey is exactly the required amplitude |
| DiffOfGaussians.RescaleWithinBounds | insilico_stimuli/stimuli.py:428-434 | if grey ± the required amplitude fits the boundaries, so does every rescaled pixel |
| DiffOfGaussians.RenderReachesAmplitude | insilico_stimuli/stimuli.py:415-434 | a drawn image deviates from grey by at most, and somewhere exactly, contrast * min distance to a boundary |
| DiffOfGaussians.RenderWithinBounds | insilico_stimuli/stimuli.py:427-434 | for a contrast in [0, 1] and grey inside the boundaries, every pixel of a drawn image is within the boundaries |
| DiffOfGaussians.ZeroContrastIsGrey | insilico_stimuli/stimuli.py:430-434 | zero contrast draws a uniformly grey image |
| CenterSurround.Init | insilico_stimuli/stimuli.py:478-520 | the constructor keeps the given lists and derives locations, both orientation lists, both phase lists and boundaries by their rules |
| CenterSurround.Params | insilico_stimuli/stimuli.py:522-535 | the eleven parameters are named as `stimulus` expects; the locations come first and the rest are scalars |
| CenterSurround.Arguments | insilico_stimuli/stimuli.py:537-538 | the bound values are accepted exactly when the location is a point and the rest are scalars |
| CenterSurround.Indicator | insilico_stimuli/stimuli.py:576-577 | a boolean mask entry counts as 1 or 0 |
| CenterSurround.Render | insilico_stimuli/stimuli.py:557-591 | size_center > size_surround fails with its message; otherwise one pixel per canvas point |
| CenterSurround.Stimulus | insilico_stimuli/stimuli.py:537-591 | `stimulus(**kw)` without `**kwargs`: refuse unexpected keywords, then bind the eleven and draw; ExtraKeywordsRefused and StimulusOfBound state its behaviour |
| CenterSurround.Rotated | insilico_stimuli/stimuli.py:560-571 | a pixel's offset from the location, rotated into the centre or surround frame; NormsAgree compares the two frames |
| CenterSurround.Grating | insilico_stimuli/stimuli.py:579-580 | cos(2 pi f u + phase) along a rotated axis; AmplitudeGratingBounded bounds it once scaled |
| CenterSurround.CenterGrating | insilico_stimuli/stimuli.py:579-588 | the centre grating times its amplitude, before masking; GratingsBounded bounds it |
| CenterSurround.SurroundGrating | insilico_stimuli/stimuli.py:580-589 | the surround grating times its amplitude, before masking; GratingsBounded bounds it |
| CenterSurround.Draw | insilico_stimuli/stimuli.py:557-591 | the bound values turned into typed arguments and drawn; StimulusOfBound reaches it from a keyword dictionary |
| CenterSurround.Norm | insilico_stimuli/stimuli.py:573-574 | `norm_xy`: sqrt(u² + v²) of a rotated offset; NormsAgree states that both frames give the same norm |
| CenterSurround.InDisk | insilico_stimuli/stimuli.py:576 | the centre mask: norm at most size_center * size_total; MasksDisjoint and RenderPiecewise state its role |
| CenterSurround.InAnnulus | insilico_stimuli/stimuli.py:577 | the surround mask: norm above size_surround * size_total and at most size_total; MasksDisjoint and RenderPiecewise state its role |
| CenterSurround.Pixel | insilico_stimuli/stimuli.py:588-591 | one pixel, mask times contrast grating for the centre plus the same for the surround; RenderPiecewise and RenderBounded state its value |
| CenterSurround.ExtraKeywordsRefused | insilico_stimuli/stimuli.py:537-538 | any keyword outside the signature is refused as unexpected |
| CenterSurround.StimulusOfBound | insilico_stimuli/stimuli.py:537-591 | keywords all within the signature that bind draw the image of the bound values |
| CenterSurround.NormsAgree | insilico_stimuli/stimuli.py:563-574 | both rotations give the same distance from the location |
| CenterSurround.MasksDisjoint | insilico_stimuli/stimuli.py:573-577 | once the guard has passed, no pixel is in both the centre disk and the surround annulus |
| CenterSurround.RenderPiecewise | insilico_stimuli/stimuli.py:576-591 | a pixel is the centre grating in the disk, the surround grating in the annulus, and 0 elsewhere |
| CenterSurround.GratingsBounded | insilico_stimuli/stimuli.py:579-589 | each contrast grating stays within its own amplitude |
| CenterSurround.RenderBounded | insilico_stimuli/stimuli.py:583-591 | every pixel's magnitude is within the larger of the two amplitudes |
| CenterSurround.ZeroContrastsIsBlank | insilico_stimuli/stimuli.py:583-591 | with both contrasts zero the image is all 0 (no grey level is added) |
| Stimuli.Params | insilico_stimuli/stimuli.py:13-14 | every subclass's parameter names are its `stimulus` signature |
| Stimuli.SignatureDistinct | insilico_stimuli/stimuli.py:50 | no subclass repeats a keyword, so the dictionary keeps every entry |
| Stimuli.ParamsFromIdx | insilico_stimuli/stimuli.py:26-39 | out-of-range indices fail with IndexOutOfRange; DoG and Center-Surround use the base decomposition |
| Stimuli.ParamsDictFromIdx | insilico_stimuli/stimuli.py:41-50 | fails exactly when `params_from_idx` fails, with the same error; otherwise the values keyed by the signature |
| Stimuli.ParamsDictLookup | insilico_stimuli/stimuli.py:41-50 | keyword i of the dictionary holds entry i of the combination |
| Stimuli.Signature | insilico_stimuli/stimuli.py:50 | the keywords of each subclass, the names in its `params()`; Params and SignatureDistinct state them |
| Stimuli.Draw | insilico_stimuli/stimuli.py:59 | the subclass's formula on a combination in signature order; StimulusOfZip and StimulusFromIdx connect it to the keyword call |
| Stimuli.Producer | insilico_stimuli/stimuli.py:74-75 | image i of the set, `stimulus_from_idx(i)`, as the comprehensions call it; Images and ImageBatches collect it |
| Stimuli.Stimulus | insilico_stimuli/stimuli.py:59 | `stimulus(**kw)` dispatched to the subclass; StimulusOfZip states that it draws a zipped combination |
| Stimuli.StimulusOfZip | insilico_stimuli/stimuli.py:52-59 | passing a combination as its keyword dictionary draws exactly that combination, for all four subclasses |
| Stimuli.StimulusFromIdx | insilico_stimuli/stimuli.py:52-59 | the stimulus of index idx is the subclass's image of combination idx, or the decomposition's error |
| Stimuli.Images | insilico_stimuli/stimuli.py:78-86 | `images()` is the comprehension over every index from 0 to the total number of combinations |
| Stimuli.ImageBatches | insilico_stimuli/stimuli.py:61-76 | step 0 fails before any batch and a negative step yields none; otherwise the full batches before the first failing chunk are yielded, that chunk fails with the first exception, and without a failure the batches concatenate to `images()` |

## Left out

- The values of `cos`, `sin`, `exp` and `sqrt` are function parameters of `Numerics.Math`, not computed. Only the facts in `Pythagorean` and `Bounded` are used.
- Floating-point rounding is not modelled: pixels are exact reals. The claims about bounds and amplitudes hold for the exact formulas.
- The array shape plumbing of numpy (`reshape`, `stack`, the `(n, h, w)` result of `np.array`) is not modelled. An image is a row-major sequence of `width * height` pixels, and a batch is a sequence of images.
- `np.prod` on int64 can overflow for huge parameter spaces. The model uses unbounded integers.
- `image_batches` is a generator. The model gives all batches it yields before it stops and the exception that stopped it; laziness and the interleaving with the consumer are not modelled.
- Gabor.Render: with a zero size, numpy divides `-(x² + gamma·y²)` by 0 with a warning. A pixel is grey where that numerator is negative. It is nan where the numerator is 0, which is the one point at zero offset, or a whole line of pixels when gamma = 0. It is inf or nan where the numerator is positive, which happens for gamma < 0. The model treats a zero size as a NonFinite failure of the whole image.
- Plaids.Render: the same NonFinite simplification for a zero size.
- DiffOfGaussians.Render: a zero size or an all-zero raw array yields NonFinite rather than the arrays of inf and nan that numpy produces.
- Gabor.ParamsFromIdx: ZeroDivision models `/=` on Python numbers. When the parameter lists are numpy arrays, numpy yields inf instead of raising; that case is not modelled.
- ParameterSpace.Bind: a missing keyword is reported as the first missing name of the signature. Python's `TypeError` lists all missing names.
- CenterSurround.ExtraKeywordsRefused: Python names only the first unexpected keyword; the model reports the set of all of them.
- Gabor.Arguments, Plaids.Arguments, DiffOfGaussians.Arguments and CenterSurround.Arguments check every argument's kind (point or scalar) before the formula and report WrongKind. Python reads the arguments only as the formula goes. So when a guard fails before a mis-typed location is read (stimuli.py lines 415-416 and 557-558), Python raises the `ValueError` where the model reports WrongKind. numpy may also broadcast a mis-typed value instead of raising.
- The constructors' `type(x) is not list` test is modelled as the choice between `Values` and `Count` in `Configuration.AngleSpec`. A tuple or numpy array passed as the value list is not modelled.
- The stored `center_range` (`self.cr`) is used only to build the default grid, so it is not kept in the set records.
- CenterSurround stores `relative_sf`, but its `params_from_idx` is the base one, so the spatial frequency is never divided by the size. The model follows the code, although the class documents the option.
- The Plaid images are centred on twice the grey level, because both Gabors add the grey level. The model follows the code.
- Stimuli.Images: the method's contract is the relation to `Batching.Collect`; what the comprehension yields index by index is stated by `Batching.CollectMeaning`.
- Gabor.PeakAtLocation: the peak value is stated with `exp(0)` left symbolic, since `Math` does not fix `exp(0) == 1`.
