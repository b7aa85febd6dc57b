/**
 * Enumeration of the parameter space: the index ranges `image_batches` cuts
 * `[0, total)` into (`np.arange(0, total, batch_size)` with each end clipped
 * by `np.minimum`), and the in-order, first-failure-wins collection of
 * per-index results that a Python list comprehension performs.
 */
module Batching {
  import opened Results
  import Arith

  /** The half-open index range [start, end) of one batch. */
  datatype Span = Span(start: nat, end: nat)

  function MinNat(a: nat, b: nat): (r: nat)
    ensures r <= a && r <= b && (r == a || r == b)
  {
    if a <= b then a else b
  }

  /**
   * The batches from `start` on: a batch begins at every `start + k * size`
   * below `total` and ends at the next start or at `total`, whichever is first.
   */
  function Chunks(start: nat, total: nat, size: nat): seq<Span>
    requires size > 0
    decreases total - start
  {
    if start >= total then []
    else [Span(start, MinNat(start + size, total))] + Chunks(start + size, total, size)
  }

  /** Batch i begins at `start + i * size`, below `total`, and ends `size` later or at `total`. */
  lemma {:induction false} ChunkAt(start: nat, total: nat, size: nat, i: nat)
    requires size > 0 && i < |Chunks(start, total, size)|
    ensures start + i * size < total
    ensures Chunks(start, total, size)[i] == Span(start + i * size, MinNat(start + i * size + size, total))
    decreases total - start
  {
    if i > 0 {
      ChunkAt(start + size, total, size, i - 1);
      assert start + size + (i - 1) * size == start + i * size;
    }
  }

  /** The number of batches is the number of remaining indices divided by `size`, rounded up. */
  lemma {:induction false} ChunkCount(start: nat, total: nat, size: nat)
    requires size > 0 && start <= total
    ensures |Chunks(start, total, size)| == (total - start + size - 1) / size
    decreases total - start
  {
    if start + size >= total {
      if start == total {
        Arith.DivModUnique(size - 1, 0, size - 1, size);
      } else {
        assert Chunks(start + size, total, size) == [];
        Arith.DivModUnique(total - start + size - 1, 1, total - start - 1, size);
      }
    } else {
      ChunkCount(start + size, total, size);
      var x := total - start - 1;
      Arith.DivModUnique(x, x / size, x % size, size);
      Arith.DivModUnique(x + size, x / size + 1, x % size, size);
    }
  }

  /** Every batch except the last holds exactly `size` indices. */
  lemma FullChunks(start: nat, total: nat, size: nat, i: nat)
    requires size > 0 && i + 1 < |Chunks(start, total, size)|
    ensures Chunks(start, total, size)[i].end - Chunks(start, total, size)[i].start == size
  {
    ChunkAt(start, total, size, i);
    ChunkAt(start, total, size, i + 1);
    assert start + (i + 1) * size == start + i * size + size;
  }

  /**
   * The last batch ends at `total` and holds the remainder of the indices
   * modulo `size`, or a full `size` when `size` divides their number.
   */
  lemma {:induction false} LastChunk(start: nat, total: nat, size: nat)
    requires size > 0 && start < total
    ensures var cs := Chunks(start, total, size);
      |cs| > 0 && cs[|cs| - 1].end == total &&
      cs[|cs| - 1].end - cs[|cs| - 1].start ==
        if (total - start) % size == 0 then size else (total - start) % size
    decreases total - start
  {
    if start + size >= total {
      assert Chunks(start + size, total, size) == [];
      if total - start == size {
        Arith.DivModUnique(total - start, 1, 0, size);
      } else {
        Arith.DivModUnique(total - start, 0, total - start, size);
      }
    } else {
      LastChunk(start + size, total, size);
      var x := total - start - size;
      Arith.DivModUnique(x, x / size, x % size, size);
      Arith.DivModUnique(x + size, x / size + 1, x % size, size);
    }
  }

  /** The indices lo, lo + 1, ..., hi - 1 in increasing order (`range(lo, hi)`). */
  function Indices(lo: nat, hi: nat): (s: seq<nat>)
    ensures |s| == if lo <= hi then hi - lo else 0
    ensures forall k :: 0 <= k < |s| ==> s[k] == lo + k
    decreases hi - lo
  {
    if hi <= lo then [] else [lo] + Indices(lo + 1, hi)
  }

  /** A range splits at any point between its ends. */
  lemma IndicesSplit(lo: nat, mid: nat, hi: nat)
    requires lo <= mid <= hi
    ensures Indices(lo, hi) == Indices(lo, mid) + Indices(mid, hi)
  {
    assert forall k :: 0 <= k < hi - lo ==> Indices(lo, hi)[k] == (Indices(lo, mid) + Indices(mid, hi))[k];
  }

  /** The indices of the batches, one batch after the other. */
  function Flatten(cs: seq<Span>): seq<nat>
  {
    if |cs| == 0 then [] else Indices(cs[0].start, cs[0].end) + Flatten(cs[1..])
  }

  /** The batches, read one after the other, visit every index from `start` to `total` once, in order. */
  lemma {:induction false} ChunksCover(start: nat, total: nat, size: nat)
    requires size > 0 && start <= total
    ensures Flatten(Chunks(start, total, size)) == Indices(start, total)
    decreases total - start
  {
    var cs := Chunks(start, total, size);
    if start < total {
      var mid := MinNat(start + size, total);
      assert cs[1..] == Chunks(start + size, total, size);
      if start + size <= total {
        ChunksCover(start + size, total, size);
      }
      IndicesSplit(start, mid, total);
    }
  }

  /** Two results in sequence: the first failure, or both values one after the other. */
  function Then<T>(a: Result<seq<T>>, b: Result<seq<T>>): Result<seq<T>>
  {
    if a.Err? then a else if b.Err? then Err(b.error) else Ok(a.value + b.value)
  }

  /**
   * `[f(i) for i in range(lo, hi)]`: the results in index order, or the
   * failure of the first index that fails (the comprehension stops there).
   */
  function Collect<T>(f: nat -> Result<T>, lo: nat, hi: nat): (r: Result<seq<T>>)
    ensures r.Ok? ==> |r.value| == if lo <= hi then hi - lo else 0
    decreases hi - lo
  {
    if hi <= lo then Ok([])
    else
      var first := f(lo);
      if first.Err? then Err(first.error)
      else
        var rest := Collect(f, lo + 1, hi);
        if rest.Err? then Err(rest.error)
        else Ok([first.value] + rest.value)
  }

  /**
   * What the comprehension produces: every value in index order when every
   * index succeeds, otherwise the failure of the first index that fails.
   */
  lemma {:induction false} CollectMeaning<T>(f: nat -> Result<T>, lo: nat, hi: nat)
    ensures Collect(f, lo, hi).Ok? <==> forall i :: lo <= i < hi ==> f(i).Ok?
    ensures Collect(f, lo, hi).Ok? ==> forall k :: 0 <= k < |Collect(f, lo, hi).value| ==> f(lo + k) == Ok(Collect(f, lo, hi).value[k])
    ensures Collect(f, lo, hi).Err? ==>
      exists j :: lo <= j < hi && f(j) == Err(Collect(f, lo, hi).error) && forall i :: lo <= i < j ==> f(i).Ok?
    decreases hi - lo
  {
    if lo < hi {
      CollectMeaning(f, lo + 1, hi);
      var r, rest := Collect(f, lo, hi), Collect(f, lo + 1, hi);
      if f(lo).Err? {
        assert lo <= lo < hi && f(lo) == Err(r.error);
      } else if rest.Err? {
        var j :| lo + 1 <= j < hi && f(j) == Err(rest.error) && forall i :: lo + 1 <= i < j ==> f(i).Ok?;
        assert lo <= j < hi && f(j) == Err(r.error) && forall i :: lo <= i < j ==> f(i).Ok?;
      } else {
        assert r.value == [f(lo).value] + rest.value;
        forall k | 0 <= k < |r.value|
          ensures f(lo + k) == Ok(r.value[k])
        {
          if k > 0 {
            assert r.value[k] == rest.value[k - 1];
            assert f(lo + 1 + (k - 1)) == Ok(rest.value[k - 1]);
          }
        }
      }
    }
  }

  /** One result as a list of at most one value. */
  function Single<T>(r: Result<T>): Result<seq<T>>
  {
    if r.Err? then Err(r.error) else Ok([r.value])
  }

  /** Sequencing results is associative. */
  lemma ThenAssoc<T>(a: Result<seq<T>>, b: Result<seq<T>>, c: Result<seq<T>>)
    ensures Then(a, Then(b, c)) == Then(Then(a, b), c)
  {
    if a.Ok? && b.Ok? && c.Ok? {
      assert a.value + (b.value + c.value) == (a.value + b.value) + c.value;
    }
  }

  /** A non-empty range is its first index followed by the rest. */
  lemma CollectStep<T>(f: nat -> Result<T>, lo: nat, hi: nat)
    requires lo < hi
    ensures Collect(f, lo, hi) == Then(Single(f(lo)), Collect(f, lo + 1, hi))
  {
  }

  /** Collecting over a range is collecting over its two halves in sequence. */
  lemma {:induction false} CollectSplit<T>(f: nat -> Result<T>, lo: nat, mid: nat, hi: nat)
    requires lo <= mid <= hi
    ensures Collect(f, lo, hi) == Then(Collect(f, lo, mid), Collect(f, mid, hi))
    decreases mid - lo
  {
    if lo < mid {
      CollectSplit(f, lo + 1, mid, hi);
      CollectStep(f, lo, hi);
      CollectStep(f, lo, mid);
      ThenAssoc(Single(f(lo)), Collect(f, lo + 1, mid), Collect(f, mid, hi));
    } else {
      ThenNothing(Collect(f, mid, hi));
    }
  }

  /** Nothing followed by a result is that result. */
  lemma ThenNothing<T>(b: Result<seq<T>>)
    ensures Then(Ok([]), b) == b
  {
    if b.Ok? {
      assert [] + b.value == b.value;
    }
  }

  /** The batches stacked back into one list, in order. */
  function Concat<T>(batches: seq<seq<T>>): seq<T>
  {
    if |batches| == 0 then [] else Concat(batches[..|batches| - 1]) + batches[|batches| - 1]
  }

  /** Appending a batch appends its elements. */
  lemma ConcatSnoc<T>(batches: seq<seq<T>>, batch: seq<T>)
    ensures Concat(batches + [batch]) == Concat(batches) + batch
  {
    assert (batches + [batch])[..|batches|] == batches;
  }

  /** `[f(i) for i in range(lo, hi)]`, evaluated one index at a time; it stops at the first failure. */
  method CollectRange<T>(f: nat -> Result<T>, lo: nat, hi: nat) returns (r: Result<seq<T>>)
    requires lo <= hi
    ensures r == Collect(f, lo, hi)
  {
    var values: seq<T> := [];
    var i := lo;
    while i < hi
      invariant lo <= i <= hi
      invariant Collect(f, lo, i) == Ok(values)
    {
      var value := f(i);
      CollectSplit(f, lo, i, i + 1);
      if value.Err? {
        CollectSplit(f, lo, i + 1, hi);
        return Err(value.error);
      }
      assert Collect(f, i, i + 1) == Ok([value.value]) by {
        assert [value.value] + [] == [value.value];
      }
      values := values + [value.value];
      i := i + 1;
    }
    return Ok(values);
  }

  /**
   * The generator loop of `image_batches` for a positive batch size: one
   * batch per range of `Chunks(0, total, size)`, each collected with `f`;
   * the first failing index stops it. It returns the batches yielded before
   * the failure, and the failure.
   */
  method Batches<T>(f: nat -> Result<T>, total: nat, size: nat) returns (batches: seq<seq<T>>, failure: Option<Error>)
    requires size > 0
    ensures |batches| <= |Chunks(0, total, size)|
    ensures forall k :: 0 <= k < |batches| ==>
      Collect(f, Chunks(0, total, size)[k].start, Chunks(0, total, size)[k].end) == Ok(batches[k])
    ensures failure.None? <==> Collect(f, 0, total).Ok?
    ensures failure.None? ==> |batches| == |Chunks(0, total, size)| && Collect(f, 0, total) == Ok(Concat(batches))
    ensures failure.Some? ==> Collect(f, 0, total) == Err(failure.value)
    ensures failure.Some? ==>
      && |batches| < |Chunks(0, total, size)|
      && Collect(f, Chunks(0, total, size)[|batches|].start, Chunks(0, total, size)[|batches|].end) == Err(failure.value)
  {
    batches := [];
    ghost var chunks := Chunks(0, total, size);
    var start := 0;
    while start < total
      invariant |batches| <= |chunks| && chunks[|batches|..] == Chunks(start, total, size)
      invariant forall k :: 0 <= k < |batches| ==> Collect(f, chunks[k].start, chunks[k].end) == Ok(batches[k])
      invariant Collect(f, 0, MinNat(start, total)) == Ok(Concat(batches))
      decreases total - start
    {
      var end := MinNat(start + size, total);
      assert chunks[|batches|] == Span(start, end);
      var batch := CollectRange(f, start, end);
      CollectSplit(f, 0, start, end);
      if batch.Err? {
        CollectSplit(f, 0, end, total);
        return batches, Some(batch.error);
      }
      ConcatSnoc(batches, batch.value);
      assert chunks[|batches| + 1..] == Chunks(start + size, total, size);
      batches := batches + [batch.value];
      start := start + size;
    }
    assert Chunks(start, total, size) == [];
    return batches, None;
  }
}
