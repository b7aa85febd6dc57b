/**
 * `StimuliSet` and its four subclasses as one datatype: the enumeration of a
 * set's parameter combinations (`params_from_idx`, `params_dict_from_idx`,
 * `stimulus_from_idx`) and the two ways of drawing all of them (`images`
 * and the `image_batches` generator).
 */
module Stimuli {
  import opened Results
  import opened Numerics
  import opened ParameterSpace
  import opened Canvas
  import opened Batching
  import Gabor
  import Plaids
  import DiffOfGaussians
  import CenterSurround

  /** One stimulus set; the variant is the subclass. */
  datatype StimuliSet =
    | GaborStimuli(gabor: Gabor.GaborSet)
    | PlaidStimuli(plaid: Plaids.PlaidsSet)
    | DoGStimuli(dog: DiffOfGaussians.DoGSet)
    | CenterSurroundStimuli(centerSurround: CenterSurround.CenterSurroundSet)

  /** The keywords of the set's `params()`, which are also the parameters of its `stimulus`. */
  function Signature(s: StimuliSet): seq<string>
  {
    match s
    case GaborStimuli(_) => Gabor.GaborNames
    case PlaidStimuli(_) => Plaids.PlaidNames
    case DoGStimuli(_) => DiffOfGaussians.DoGNames
    case CenterSurroundStimuli(_) => CenterSurround.CenterSurroundNames
  }

  /** `params()` of the subclass. */
  function Params(s: StimuliSet): (ps: seq<Descriptor>)
    ensures Names(ps) == Signature(s)
  {
    match s
    case GaborStimuli(g) => Gabor.Params(g)
    case PlaidStimuli(p) => Plaids.Params(p)
    case DoGStimuli(d) => DiffOfGaussians.Params(d)
    case CenterSurroundStimuli(c) => CenterSurround.Params(c)
  }

  /** The number of parameter combinations, `np.prod(num_params())`. */
  function Total(s: StimuliSet): nat
  {
    ParameterSpace.Total(Params(s))
  }

  /**
   * `params_from_idx`: the Gabor and Plaid sets apply the `relative_sf`
   * override; the DoG and Center-Surround sets keep the base decomposition
   * (the Center-Surround set ignores its own `relative_sf`).
   */
  function ParamsFromIdx(s: StimuliSet, idx: int): (r: Result<seq<Value>>)
    ensures r.Ok? ==> 0 <= idx < Total(s) && |r.value| == |Signature(s)|
    ensures !(0 <= idx < Total(s)) ==> r == Err(IndexOutOfRange(idx))
    ensures s.DoGStimuli? || s.CenterSurroundStimuli? ==> r == ParameterSpace.ParamsFromIdx(Params(s), idx)
  {
    match s
    case GaborStimuli(g) => Gabor.RelativeParamsFromIdx(Params(s), g.relativeSf, idx)
    case PlaidStimuli(p) => Gabor.RelativeParamsFromIdx(Params(s), p.relativeSf, idx)
    case DoGStimuli(_) => ParameterSpace.ParamsFromIdx(Params(s), idx)
    case CenterSurroundStimuli(_) => ParameterSpace.ParamsFromIdx(Params(s), idx)
  }

  /** The keywords of every set are pairwise different. */
  lemma SignatureDistinct(s: StimuliSet)
    ensures Distinct(Signature(s))
  {
  }

  /** `params_dict_from_idx`: the combination keyed by the parameter names. */
  function ParamsDictFromIdx(s: StimuliSet, idx: int): (r: Result<map<string, Value>>)
    ensures r.Ok? <==> ParamsFromIdx(s, idx).Ok?
    ensures r.Err? ==> r.error == ParamsFromIdx(s, idx).error
    ensures r.Ok? ==> r.value == Zip(Signature(s), ParamsFromIdx(s, idx).value)
  {
    var vals :- ParamsFromIdx(s, idx);
    Ok(Zip(Signature(s), vals))
  }

  /** Each keyword of the dictionary holds the entry of the combination at that keyword's position. */
  lemma ParamsDictLookup(s: StimuliSet, idx: int, i: nat)
    requires ParamsFromIdx(s, idx).Ok? && i < |Signature(s)|
    ensures Signature(s)[i] in ParamsDictFromIdx(s, idx).value
    ensures ParamsDictFromIdx(s, idx).value[Signature(s)[i]] == ParamsFromIdx(s, idx).value[i]
  {
    SignatureDistinct(s);
    ZipLookup(Signature(s), ParamsFromIdx(s, idx).value, i);
  }

  /** `stimulus(**kw)` of the subclass. */
  function Stimulus(m: Math, s: StimuliSet, kw: map<string, Value>): Result<Image>
  {
    match s
    case GaborStimuli(g) => Gabor.Stimulus(m, g, kw)
    case PlaidStimuli(p) => Plaids.Stimulus(m, p, kw)
    case DoGStimuli(d) => DiffOfGaussians.Stimulus(m, d, kw)
    case CenterSurroundStimuli(c) => CenterSurround.Stimulus(m, c, kw)
  }

  /** The subclass's formula applied to a combination given in signature order. */
  function Draw(m: Math, s: StimuliSet, vals: seq<Value>): Result<Image>
    requires |vals| == |Signature(s)|
  {
    match s
    case GaborStimuli(g) => Gabor.Draw(m, g, vals)
    case PlaidStimuli(p) => Plaids.Draw(m, p, vals)
    case DoGStimuli(d) => DiffOfGaussians.Draw(m, d, vals)
    case CenterSurroundStimuli(c) => CenterSurround.Draw(m, c, vals)
  }

  /**
   * Passing a combination as keywords loses nothing: binding the zipped
   * dictionary gives the combination back, no keyword is unexpected and none
   * collides, so the stimulus is the formula applied to the combination.
   */
  lemma StimulusOfZip(m: Math, s: StimuliSet, vals: seq<Value>)
    requires |vals| == |Signature(s)|
    ensures Stimulus(m, s, Zip(Signature(s), vals)) == Draw(m, s, vals)
  {
    SignatureDistinct(s);
    BindZip(Signature(s), vals);
    match s
    case GaborStimuli(g) =>
    case PlaidStimuli(p) =>
      ZipKeys(Signature(s), vals);
      Plaids.ContrastNotAKeyword();
      Plaids.StimulusOfBound(m, p, Zip(Signature(s), vals), vals);
    case DoGStimuli(d) =>
    case CenterSurroundStimuli(c) =>
      ZipKeys(Signature(s), vals);
      CenterSurround.StimulusOfBound(m, c, Zip(Signature(s), vals), vals);
  }

  /** `stimulus_from_idx`: the stimulus of the keyword dictionary of combination idx. */
  function StimulusFromIdx(m: Math, s: StimuliSet, idx: int): (r: Result<Image>)
    ensures !(0 <= idx < Total(s)) ==> r == Err(IndexOutOfRange(idx))
    ensures ParamsFromIdx(s, idx).Ok? ==> r == Draw(m, s, ParamsFromIdx(s, idx).value)
    ensures ParamsFromIdx(s, idx).Err? ==> r == Err(ParamsFromIdx(s, idx).error)
  {
    var kw :- ParamsDictFromIdx(s, idx);
    StimulusOfZip(m, s, ParamsFromIdx(s, idx).value);
    Stimulus(m, s, kw)
  }

  /** Image i of the set, as the comprehensions in `images` and `image_batches` compute it. */
  function Producer(m: Math, s: StimuliSet): nat -> Result<Image>
  {
    i => StimulusFromIdx(m, s, i)
  }

  /** `images()`: every combination's image, in index order, or the first failure. */
  method Images(m: Math, s: StimuliSet) returns (r: Result<seq<Image>>)
    ensures r == Collect(Producer(m, s), 0, Total(s))
  {
    r := CollectRange(Producer(m, s), 0, Total(s));
  }

  /**
   * `image_batches(batch_size)`: the batches the generator yields before it
   * stops, and the exception that stopped it, if any. A step of 0 makes
   * `np.arange` raise before the first batch; a negative step yields nothing.
   */
  method ImageBatches(m: Math, s: StimuliSet, batchSize: int) returns (batches: seq<seq<Image>>, failure: Option<Error>)
    ensures batchSize == 0 ==> batches == [] && failure == Some(ZeroStep)
    ensures batchSize < 0 ==> batches == [] && failure == None
    ensures batchSize > 0 ==> |batches| <= |Chunks(0, Total(s), batchSize)|
    ensures batchSize > 0 ==> forall k :: 0 <= k < |batches| ==>
      Collect(Producer(m, s), Chunks(0, Total(s), batchSize)[k].start, Chunks(0, Total(s), batchSize)[k].end) == Ok(batches[k])
    ensures batchSize > 0 ==> (failure.None? <==> Collect(Producer(m, s), 0, Total(s)).Ok?)
    ensures batchSize > 0 && failure.None? ==>
      |batches| == |Chunks(0, Total(s), batchSize)| && Collect(Producer(m, s), 0, Total(s)) == Ok(Concat(batches))
    ensures batchSize > 0 && failure.Some? ==> Collect(Producer(m, s), 0, Total(s)) == Err(failure.value)
    ensures batchSize > 0 && failure.Some? ==>
      && |batches| < |Chunks(0, Total(s), batchSize)|
      && Collect(Producer(m, s), Chunks(0, Total(s), batchSize)[|batches|].start, Chunks(0, Total(s), batchSize)[|batches|].end) == Err(failure.value)
  {
    if batchSize == 0 {
      return [], Some(ZeroStep);
    }
    if batchSize < 0 {
      return [], None;
    }
    batches, failure := Batches(Producer(m, s), Total(s), batchSize);
  }
}
