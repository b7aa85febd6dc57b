/**
 * The indexing engine of the `StimuliSet` base class: every stimulus class
 * declares an ordered list of (value list, keyword) pairs, and a linear index
 * in [0, product of the list lengths) names one combination, decoded in
 * row-major order (first list slowest, last list fastest) as
 * `np.unravel_index` does.
 */
module ParameterSpace {
  import opened Results
  import Arith

  /** A parameter value: a number, or an (x, y) location. */
  datatype Value = Scalar(r: real) | Point(x: real, y: real)

  /** One entry of `params()`: the values a parameter ranges over and its keyword. */
  datatype Descriptor = Descriptor(values: seq<Value>, name: string)

  /** `num_params`: the length of each value list, in declared order. */
  function NumParams(ps: seq<Descriptor>): (counts: seq<nat>)
    ensures |counts| == |ps|
    ensures forall i :: 0 <= i < |ps| ==> counts[i] == |ps[i].values|
  {
    seq(|ps|, i requires 0 <= i < |ps| => |ps[i].values|)
  }

  /** `np.prod`: the product of the radices (1 for no radices). */
  function Product(dims: seq<nat>): nat
  {
    if |dims| == 0 then 1 else Product(dims[..|dims| - 1]) * dims[|dims| - 1]
  }

  /** The number of parameter combinations, `np.prod(self.num_params())`. */
  function Total(ps: seq<Descriptor>): nat
  {
    Product(NumParams(ps))
  }

  /** The product is positive exactly when no radix is zero. */
  lemma {:induction false} ProductPositive(dims: seq<nat>)
    ensures Product(dims) > 0 <==> forall k :: 0 <= k < |dims| ==> dims[k] > 0
  {
    if |dims| > 0 {
      var n := |dims| - 1;
      ProductPositive(dims[..n]);
      assert forall k :: 0 <= k < n ==> dims[..n][k] == dims[k];
    }
  }

  /** The product of a radix list split before its last element. */
  lemma ProductSnoc(dims: seq<nat>, k: nat)
    requires k < |dims|
    ensures Product(dims[k..]) == Product(dims[k..|dims| - 1]) * dims[|dims| - 1]
  {
    assert dims[k..][..|dims[k..]| - 1] == dims[k..|dims| - 1];
  }

  /** Digits that are each below their radix. */
  predicate InRange(digits: seq<nat>, dims: seq<nat>)
  {
    |digits| == |dims| && forall k :: 0 <= k < |dims| ==> digits[k] < dims[k]
  }

  /**
   * `np.unravel_index(idx, dims)`: the last digit is `idx % dims[last]` and the
   * remaining digits decode `idx / dims[last]` against the remaining radices.
   */
  function Unravel(idx: nat, dims: seq<nat>): (digits: seq<nat>)
    requires idx < Product(dims)
    ensures InRange(digits, dims)
    decreases |dims|
  {
    if |dims| == 0 then []
    else
      var n := |dims| - 1;
      Arith.QuotientBound(idx, Product(dims[..n]), dims[n]);
      var front := Unravel(idx / dims[n], dims[..n]);
      assert forall k :: 0 <= k < n ==> dims[..n][k] == dims[k];
      front + [idx % dims[n]]
  }

  /** The inverse of Unravel: digits read as a mixed-radix numeral. */
  function Ravel(digits: seq<nat>, dims: seq<nat>): (idx: nat)
    requires InRange(digits, dims)
    ensures idx < Product(dims)
    decreases |dims|
  {
    if |dims| == 0 then 0
    else
      var n := |dims| - 1;
      assert InRange(digits[..n], dims[..n]);
      var front := Ravel(digits[..n], dims[..n]);
      Arith.MulAddBound(front, digits[n], Product(dims[..n]), dims[n]);
      front * dims[n] + digits[n]
  }

  /** Decoding then encoding gives the index back. */
  lemma {:induction false} RavelUnravel(idx: nat, dims: seq<nat>)
    requires idx < Product(dims)
    ensures Ravel(Unravel(idx, dims), dims) == idx
    decreases |dims|
  {
    if |dims| > 0 {
      var n := |dims| - 1;
      Arith.QuotientBound(idx, Product(dims[..n]), dims[n]);
      var d := Unravel(idx, dims);
      assert d[..n] == Unravel(idx / dims[n], dims[..n]);
      RavelUnravel(idx / dims[n], dims[..n]);
      assert idx == (idx / dims[n]) * dims[n] + idx % dims[n];
    }
  }

  /** Encoding then decoding gives the digits back. */
  lemma {:induction false} UnravelRavel(digits: seq<nat>, dims: seq<nat>)
    requires InRange(digits, dims)
    ensures Unravel(Ravel(digits, dims), dims) == digits
    decreases |dims|
  {
    if |dims| > 0 {
      var n := |dims| - 1;
      assert InRange(digits[..n], dims[..n]);
      var front := Ravel(digits[..n], dims[..n]);
      var idx := Ravel(digits, dims);
      Arith.DivModUnique(idx, front, digits[n], dims[n]);
      UnravelRavel(digits[..n], dims[..n]);
      assert digits == digits[..n] + [digits[n]];
    }
  }

  /** Two indices with the same digits are the same index. */
  lemma UnravelInjective(i: nat, j: nat, dims: seq<nat>)
    requires i < Product(dims) && j < Product(dims)
    requires Unravel(i, dims) == Unravel(j, dims)
    ensures i == j
  {
    RavelUnravel(i, dims);
    RavelUnravel(j, dims);
  }

  /**
   * Digit k of the row-major decomposition, written out: divide by the product
   * of the radices after position k, then reduce modulo radix k.
   */
  function RowMajorDigit(idx: nat, dims: seq<nat>, k: nat): nat
    requires k < |dims| && Product(dims) > 0
  {
    ProductPositive(dims);
    ProductPositive(dims[k + 1..]);
    (idx / Product(dims[k + 1..])) % dims[k]
  }

  /** Appending a radix multiplies the product by it. */
  lemma ProductAppend(front: seq<nat>, last: nat)
    ensures Product(front + [last]) == Product(front) * last
  {
    assert (front + [last])[..|front|] == front;
  }

  /** Dividing by the last radix and dropping it leaves the earlier row-major digits unchanged. */
  lemma DigitOfQuotient(idx: nat, front: seq<nat>, last: nat, k: nat)
    requires idx < Product(front + [last]) && k < |front|
    ensures last > 0 && Product(front) > 0
    ensures RowMajorDigit(idx / last, front, k) == RowMajorDigit(idx, front + [last], k)
  {
    AppendedRadix(front, last, k);
    var p, n := Product(front[k + 1..]), Product((front + [last])[k + 1..]);
    Arith.DivByProduct(idx, last, p, n);
    var q := idx / last;
    assert RowMajorDigit(q, front, k) == (q / p) % front[k];
    assert RowMajorDigit(idx, front + [last], k) == (idx / n) % front[k];
  }

  /** The radices after position k once a positive radix is appended, as DigitOfQuotient needs them. */
  lemma AppendedRadix(front: seq<nat>, last: nat, k: nat)
    requires Product(front + [last]) > 0 && k < |front|
    ensures last > 0 && Product(front) > 0 && Product(front[k + 1..]) > 0
    ensures front[k] > 0 && (front + [last])[k] == front[k]
    ensures Product((front + [last])[k + 1..]) == Product(front[k + 1..]) * last
  {
    var all := front + [last];
    ProductAppend(front, last);
    ProductPositive(all);
    assert all[|front|] == last;
    assert forall j :: 0 <= j < |front| ==> all[j] == front[j];
    ProductPositive(front);
    SuffixOfAppend(front, last, k + 1);
    ProductAppend(front[k + 1..], last);
    ProductPositive(front[k + 1..]);
  }

  /** A suffix of a list with one more radix is the suffix with that radix. */
  lemma SuffixOfAppend(front: seq<nat>, last: nat, i: nat)
    requires i <= |front|
    ensures (front + [last])[i..] == front[i..] + [last]
  {
  }

  /** Unravel computes every digit by the row-major formula. */
  lemma {:induction false} UnravelDigit(idx: nat, dims: seq<nat>, k: nat)
    requires idx < Product(dims) && k < |dims|
    ensures Unravel(idx, dims)[k] == RowMajorDigit(idx, dims, k)
    decreases |dims|
  {
    var n := |dims| - 1;
    Arith.QuotientBound(idx, Product(dims[..n]), dims[n]);
    if k < n {
      UnravelDigit(idx / dims[n], dims[..n], k);
      assert dims == dims[..n] + [dims[n]];
      DigitOfQuotient(idx, dims[..n], dims[n], k);
    } else {
      assert dims[k + 1..] == [];
    }
  }

  /** The first digit changes slowest: it is the index divided by the product of the other radices. */
  lemma FirstDigitSlowest(idx: nat, dims: seq<nat>)
    requires idx < Product(dims) && |dims| > 0
    ensures Product(dims[1..]) > 0 && Unravel(idx, dims)[0] == idx / Product(dims[1..])
  {
    ProductTimesPrefix(dims);
    var rest := Product(dims[1..]);
    Arith.QuotientIsDigit(idx, dims[0], rest);
    UnravelDigit(idx, dims, 0);
    assert RowMajorDigit(idx, dims, 0) == (idx / rest) % dims[0];
  }

  /** The product of the radices is the first radix times the product of the rest. */
  lemma {:induction false} ProductTimesPrefix(dims: seq<nat>)
    requires |dims| > 0
    ensures Product(dims) == dims[0] * Product(dims[1..])
    decreases |dims|
  {
    var n := |dims| - 1;
    if n > 0 {
      ProductTimesPrefix(dims[..n]);
      assert dims[..n][1..] == dims[1..n];
      ProductSnoc(dims, 1);
    }
  }

  /** The last digit changes fastest: it is the index modulo the last radix. */
  lemma LastDigitFastest(idx: nat, dims: seq<nat>)
    requires idx < Product(dims) && |dims| > 0
    ensures Unravel(idx, dims)[|dims| - 1] == idx % dims[|dims| - 1]
  {
  }

  /** Lexicographic order on digit vectors of equal length: the first difference decides. */
  ghost predicate LexLess(d: seq<nat>, e: seq<nat>)
    requires |d| == |e|
  {
    exists k :: 0 <= k < |d| && d[..k] == e[..k] && d[k] < e[k]
  }

  /** Lexicographic order seen from the last position. */
  lemma LexSnoc(d: seq<nat>, e: seq<nat>)
    requires |d| == |e| > 0
    ensures LexLess(d, e) <==>
      var n := |d| - 1;
      LexLess(d[..n], e[..n]) || (d[..n] == e[..n] && d[n] < e[n])
  {
    var n := |d| - 1;
    if LexLess(d, e) {
      var k :| 0 <= k < |d| && d[..k] == e[..k] && d[k] < e[k];
      if k < n {
        assert d[..n][..k] == d[..k] && e[..n][..k] == e[..k];
        assert LexLess(d[..n], e[..n]);
      }
    }
    if LexLess(d[..n], e[..n]) {
      var k :| 0 <= k < n && d[..n][..k] == e[..n][..k] && d[..n][k] < e[..n][k];
      assert d[..k] == d[..n][..k] && e[..k] == e[..n][..k];
      assert LexLess(d, e);
    }
    if d[..n] == e[..n] && d[n] < e[n] {
      assert LexLess(d, e);
    }
  }

  /** Numerals compare as their digit vectors compare lexicographically. */
  lemma {:induction false} RavelOrder(d: seq<nat>, e: seq<nat>, dims: seq<nat>)
    requires InRange(d, dims) && InRange(e, dims)
    ensures Ravel(d, dims) < Ravel(e, dims) <==> LexLess(d, e)
    decreases |dims|
  {
    if |dims| == 0 {
      assert !LexLess(d, e);
    } else {
      var n := |dims| - 1;
      assert InRange(d[..n], dims[..n]) && InRange(e[..n], dims[..n]);
      RavelOrder(d[..n], e[..n], dims[..n]);
      RavelOrder(e[..n], d[..n], dims[..n]);
      UnravelRavel(d[..n], dims[..n]);
      UnravelRavel(e[..n], dims[..n]);
      Arith.MulAddOrder(Ravel(d[..n], dims[..n]), d[n], Ravel(e[..n], dims[..n]), e[n], dims[n]);
      LexSnoc(d, e);
    }
  }

  /**
   * Increasing indices visit the digit vectors in lexicographic order:
   * the first parameter varies slowest and the last fastest.
   */
  lemma UnravelOrder(i: nat, j: nat, dims: seq<nat>)
    requires i < Product(dims) && j < Product(dims)
    ensures i < j <==> LexLess(Unravel(i, dims), Unravel(j, dims))
  {
    RavelUnravel(i, dims);
    RavelUnravel(j, dims);
    RavelOrder(Unravel(i, dims), Unravel(j, dims), dims);
  }

  /**
   * `params_from_idx` of the base class: the value each list contributes to
   * combination `idx`, or the out-of-range error `np.unravel_index` raises.
   */
  function ParamsFromIdx(ps: seq<Descriptor>, idx: int): (r: Result<seq<Value>>)
    ensures r.Ok? <==> 0 <= idx < Total(ps)
    ensures r.Err? ==> r.error == IndexOutOfRange(idx)
    ensures r.Ok? ==> |r.value| == |ps|
    ensures r.Ok? ==> forall i :: 0 <= i < |ps| ==>
      r.value[i] in ps[i].values && r.value[i] == ps[i].values[RowMajorDigit(idx, NumParams(ps), i)]
  {
    if idx < 0 || idx >= Total(ps) then Err(IndexOutOfRange(idx))
    else
      var dims := NumParams(ps);
      var digits := Unravel(idx, dims);
      assert forall i :: 0 <= i < |ps| ==> digits[i] == RowMajorDigit(idx, dims, i) by {
        forall i | 0 <= i < |ps| {
          UnravelDigit(idx, dims, i);
        }
      }
      Ok(seq(|ps|, i requires 0 <= i < |ps| => ps[i].values[digits[i]]))
  }

  /** The position of a value in a list that holds it. */
  ghost function IndexOf(s: seq<Value>, v: Value): (i: nat)
    requires v in s
    ensures i < |s| && s[i] == v
  {
    var i :| 0 <= i < |s| && s[i] == v; i
  }

  /** Every element of the Cartesian product is reached by some index in range. */
  lemma ParamsFromIdxOnto(ps: seq<Descriptor>, a: seq<Value>)
    requires |a| == |ps| && forall i :: 0 <= i < |ps| ==> a[i] in ps[i].values
    ensures exists idx :: 0 <= idx < Total(ps) && ParamsFromIdx(ps, idx) == Ok(a)
  {
    var dims := NumParams(ps);
    var digits := seq(|ps|, i requires 0 <= i < |ps| => IndexOf(ps[i].values, a[i]));
    assert InRange(digits, dims);
    var idx := Ravel(digits, dims);
    UnravelRavel(digits, dims);
    var r := ParamsFromIdx(ps, idx).value;
    forall i | 0 <= i < |ps|
      ensures r[i] == a[i]
    {
      UnravelDigit(idx, dims, i);
    }
    assert r == a;
  }

  /** Lists without repeated values. */
  predicate DistinctValues(s: seq<Value>)
  {
    forall i, j :: 0 <= i < j < |s| ==> s[i] != s[j]
  }

  /**
   * When no list repeats a value, distinct indices give distinct combinations:
   * with ParamsFromIdxOnto, the indices in range and the Cartesian product are
   * in bijection.
   */
  lemma ParamsFromIdxInjective(ps: seq<Descriptor>, i: int, j: int)
    requires forall k :: 0 <= k < |ps| ==> DistinctValues(ps[k].values)
    requires 0 <= i < Total(ps) && 0 <= j < Total(ps) && i != j
    ensures ParamsFromIdx(ps, i).value != ParamsFromIdx(ps, j).value
  {
    var dims := NumParams(ps);
    var di, dj := Unravel(i, dims), Unravel(j, dims);
    if di == dj {
      UnravelInjective(i, j, dims);
    }
    var k :| 0 <= k < |dims| && di[k] != dj[k];
    UnravelDigit(i, dims, k);
    UnravelDigit(j, dims, k);
    assert ParamsFromIdx(ps, i).value[k] != ParamsFromIdx(ps, j).value[k];
  }

  /** The keywords of a descriptor list, in order. */
  function Names(ps: seq<Descriptor>): (names: seq<string>)
    ensures |names| == |ps| && forall i :: 0 <= i < |ps| ==> names[i] == ps[i].name
  {
    seq(|ps|, i requires 0 <= i < |ps| => ps[i].name)
  }

  /** No keyword appears twice. */
  predicate Distinct(names: seq<string>)
  {
    forall i, j :: 0 <= i < j < |names| ==> names[i] != names[j]
  }

  /**
   * The dict comprehension of `params_dict_from_idx`: keywords zipped with
   * values, a later entry overwriting an earlier one with the same keyword.
   */
  function Zip(names: seq<string>, vals: seq<Value>): (kw: map<string, Value>)
    requires |names| == |vals|
    ensures kw.Keys == set i | 0 <= i < |names| :: names[i]
    decreases |names|
  {
    if |names| == 0 then map[]
    else
      var n := |names| - 1;
      var front := Zip(names[..n], vals[..n]);
      assert forall i :: 0 <= i < n ==> names[..n][i] == names[i];
      front[names[n] := vals[n]]
  }

  /** The keywords of the dictionary are exactly the names. */
  lemma ZipKeys(names: seq<string>, vals: seq<Value>)
    requires |names| == |vals|
    ensures forall n :: n in Zip(names, vals) <==> n in names
  {
    forall n | n in Zip(names, vals)
      ensures n in names
    {
      var i :| 0 <= i < |names| && names[i] == n;
    }
  }

  /** A keyword maps to the value zipped with its last occurrence. */
  lemma {:induction false} ZipLookup(names: seq<string>, vals: seq<Value>, i: nat)
    requires |names| == |vals| && i < |names|
    requires forall j :: i < j < |names| ==> names[j] != names[i]
    ensures names[i] in Zip(names, vals) && Zip(names, vals)[names[i]] == vals[i]
    decreases |names|
  {
    var n := |names| - 1;
    if i < n {
      ZipLookup(names[..n], vals[..n], i);
    }
  }

  /**
   * Binding keyword arguments to a signature (`f(**kw)`): each parameter
   * takes the value of its keyword; a missing keyword is an error.
   */
  function Bind(kw: map<string, Value>, signature: seq<string>): (r: Result<seq<Value>>)
    ensures r.Ok? <==> forall i :: 0 <= i < |signature| ==> signature[i] in kw
    ensures r.Ok? ==> |r.value| == |signature|
    ensures r.Ok? ==> forall i :: 0 <= i < |signature| ==> r.value[i] == kw[signature[i]]
    decreases |signature|
  {
    if |signature| == 0 then Ok([])
    else if signature[0] !in kw then Err(MissingArgument(signature[0]))
    else
      var rest := Bind(kw, signature[1..]);
      assert forall i :: 1 <= i < |signature| ==> signature[i] == signature[1..][i - 1];
      if rest.Err? then rest else Ok([kw[signature[0]]] + rest.value)
  }

  /** Binding only looks up the signature's keywords, so keywords outside it, or overridden, do not matter. */
  lemma BindIgnoresExtra(kw: map<string, Value>, extra: map<string, Value>, signature: seq<string>)
    requires forall n :: n in signature ==> n in kw
    ensures Bind(extra + kw, signature) == Bind(kw, signature)
  {
    var a, b := Bind(extra + kw, signature), Bind(kw, signature);
    assert a.Ok? && b.Ok?;
    assert a.value == b.value;
  }

  /** Zipping values with distinct keywords, then binding by those keywords, gives the values back. */
  lemma BindZip(names: seq<string>, vals: seq<Value>)
    requires |names| == |vals| && Distinct(names)
    ensures Bind(Zip(names, vals), names) == Ok(vals)
  {
    forall i | 0 <= i < |names|
      ensures names[i] in Zip(names, vals) && Zip(names, vals)[names[i]] == vals[i]
    {
      ZipLookup(names, vals, i);
    }
    var r := Bind(Zip(names, vals), names);
    assert r.value == vals;
  }

  /** A bound value used as a number; a location in its place is the wrong kind of argument. */
  function AsScalar(v: Value, name: string): (r: Result<real>)
    ensures r.Ok? <==> v.Scalar?
    ensures r.Ok? ==> r.value == v.r
    ensures r.Err? ==> r.error == WrongKind(name)
  {
    if v.Scalar? then Ok(v.r) else Err(WrongKind(name))
  }

  /** A bound value used as a location; a number in its place is the wrong kind of argument. */
  function AsPoint(v: Value, name: string): (r: Result<(real, real)>)
    ensures r.Ok? <==> v.Point?
    ensures r.Ok? ==> r.value == (v.x, v.y)
    ensures r.Err? ==> r.error == WrongKind(name)
  {
    if v.Point? then Ok((v.x, v.y)) else Err(WrongKind(name))
  }
}
