/** The arithmetic the two analysis scripts apply to a strategy group: pandas' `Series.mean`
    (which skips missing values and gives NaN on an empty series) and the percentage formulas
    of hypotheses H1 and H2. A non-finite pandas result (NaN, or an infinity from dividing by a
    zero mean) is `None` here. */
module Summary {
  import opened Wrappers

  function Sum(xs: seq<real>): real {
    if xs == [] then 0.0 else Sum(xs[..|xs| - 1]) + xs[|xs| - 1]
  }

  /** `Series.mean()` of a column without missing values: `None` (NaN) when it is empty. */
  function Mean(xs: seq<real>): (r: Option<real>)
    ensures r.Some? <==> |xs| > 0
  {
    if xs == [] then None else Some(Sum(xs) / |xs| as real)
  }

  /** `Series.mean()` of a column that may hold NaN: the mean of the present values. */
  function MeanPresent(xs: seq<Option<real>>): Option<real> {
    Mean(Kept(xs))
  }

  lemma {:induction false} SumBounds(xs: seq<real>, lo: real, hi: real)
    requires forall k :: 0 <= k < |xs| ==> lo <= xs[k] <= hi
    ensures lo * |xs| as real <= Sum(xs) <= hi * |xs| as real
    decreases |xs|
  {
    if xs != [] {
      SumBounds(xs[..|xs| - 1], lo, hi);
    }
  }

  /** A mean lies between any lower and upper bound of the values it averages. */
  lemma MeanBounds(xs: seq<real>, lo: real, hi: real)
    requires |xs| > 0
    requires forall k :: 0 <= k < |xs| ==> lo <= xs[k] <= hi
    ensures lo <= Mean(xs).value <= hi
  {
    SumBounds(xs, lo, hi);
    var n := |xs| as real;
    var m := Sum(xs) / n;
    assert Sum(xs) == m * n;
    assert Mean(xs).value == m;
    assert lo * n <= Sum(xs) <= hi * n;
    if m < lo {
      ScaleLess(m, lo, n);
    }
    if hi < m {
      ScaleLess(hi, m, n);
    }
  }

  lemma ScaleLess(a: real, b: real, n: real)
    requires a < b && n > 0.0
    ensures a * n < b * n
  {
    assert (b - a) * n > 0.0;
  }

  /** A group whose every value is `c` has mean `c`. */
  lemma MeanOfConstant(xs: seq<real>, c: real)
    requires |xs| > 0
    requires forall k :: 0 <= k < |xs| ==> xs[k] == c
    ensures Mean(xs) == Some(c)
  {
    MeanBounds(xs, c, c);
  }

  /** `(base - other) / base * 100`: how many percent `other` is below `base` (H1). */
  function PercentReduction(base: Option<real>, other: Option<real>): (r: Option<real>)
    ensures r.Some? <==> base.Some? && other.Some? && base.value != 0.0
    ensures r.Some? ==> other.value == base.value * (1.0 - r.value / 100.0)
  {
    if base.Some? && other.Some? && base.value != 0.0 then
      Some((base.value - other.value) / base.value * 100.0)
    else None
  }

  /** `(other - base) / base * 100`: how many percent `other` is above `base` (H2). */
  function PercentChange(base: Option<real>, other: Option<real>): (r: Option<real>)
    ensures r.Some? <==> base.Some? && other.Some? && base.value != 0.0
    ensures r.Some? ==> other.value == base.value * (1.0 + r.value / 100.0)
  {
    if base.Some? && other.Some? && base.value != 0.0 then
      Some((other.value - base.value) / base.value * 100.0)
    else None
  }

  /** A reduction is a change with the sign flipped. */
  lemma ReductionIsNegatedChange(base: Option<real>, other: Option<real>)
    ensures PercentReduction(base, other).Some? <==> PercentChange(base, other).Some?
    ensures PercentReduction(base, other).Some? ==>
      PercentReduction(base, other).value == -PercentChange(base, other).value
  {
  }

  /** Between zero and the base, the reduction is a percentage between 0 and 100. */
  lemma ReductionWithinPercent(base: real, other: real)
    requires 0.0 <= other <= base && base > 0.0
    ensures 0.0 <= PercentReduction(Some(base), Some(other)).value <= 100.0
  {
    var q := (base - other) / base;
    assert q * base == base - other;
    if q > 1.0 {
      ScaleLess(1.0, q, base);
    }
  }
}
