/** Optional values, and the values of a sequence of them that are all present. */
module Wrappers {
  datatype Option<+T> = None | Some(value: T)

  /** Every entry of `xs` is present. */
  predicate AllSome<T>(xs: seq<Option<T>>) {
    forall k :: 0 <= k < |xs| ==> xs[k].Some?
  }

  /** The values of `xs`, in order. */
  function Values<T>(xs: seq<Option<T>>): (vs: seq<T>)
    requires AllSome(xs)
    ensures |vs| == |xs|
    ensures forall k :: 0 <= k < |xs| ==> vs[k] == xs[k].value
  {
    if xs == [] then []
    else
      var init := xs[..|xs| - 1];
      assert forall k :: 0 <= k < |init| ==> init[k] == xs[k];
      Values(init) + [xs[|xs| - 1].value]
  }

  /** One more present entry adds its value at the end. */
  lemma ValuesExtend<T>(xs: seq<Option<T>>, k: nat)
    requires k < |xs| && AllSome(xs[..k]) && xs[k].Some?
    ensures AllSome(xs[..k + 1])
    ensures Values(xs[..k + 1]) == Values(xs[..k]) + [xs[k].value]
  {
    var next := xs[..k + 1];
    assert next[..k] == xs[..k] && next[k] == xs[k];
  }
}
