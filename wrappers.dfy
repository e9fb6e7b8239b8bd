/** Optional values and success-or-failure results, as used by every module of the model. */
module Wrappers {

  /** A value that may be absent: a dictionary key that was never set, a column entry pandas holds as NaN. */
  datatype Option<+T> = None | Some(value: T)

  /** The outcome of an operation that the source may abort by raising an exception. */
  datatype Result<+T, +E> = Success(value: T) | Failure(error: E)

  /** The present values of `xs`, in order: what a loop that appends every value it finds
      collects, and what pandas keeps of a column after dropping NaN. */
  function Kept<T(==)>(xs: seq<Option<T>>): (r: seq<T>)
    ensures |r| <= |xs|
    ensures forall k :: 0 <= k < |r| ==> exists i :: 0 <= i < |xs| && xs[i] == Some(r[k])
  {
    if xs == [] then []
    else
      var rest := Kept(xs[..|xs| - 1]);
      match xs[|xs| - 1]
      case None => rest
      case Some(v) => rest + [v]
  }

  /** No present value is dropped. */
  lemma {:induction false} KeptKeepsEvery<T>(xs: seq<Option<T>>, i: nat)
    requires i < |xs| && xs[i].Some?
    ensures xs[i].value in Kept(xs)
    decreases |xs|
  {
    var init := xs[..|xs| - 1];
    if i < |xs| - 1 {
      assert init[i] == xs[i];
      KeptKeepsEvery(init, i);
    }
  }

  /** Values keep their order: those of a later part come after those of an earlier one. */
  lemma {:induction false} KeptAppend<T>(xs: seq<Option<T>>, more: seq<Option<T>>)
    ensures Kept(xs + more) == Kept(xs) + Kept(more)
    decreases |more|
  {
    if more == [] {
      assert xs + more == xs;
    } else {
      var init := more[..|more| - 1];
      assert (xs + more)[..|xs + more| - 1] == xs + init;
      KeptAppend(xs, init);
    }
  }
}
