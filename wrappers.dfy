/** The optional value used for the engine's error paths (a Python exception becomes None). */
module Wrappers {
  datatype Option<+T> = None | Some(value: T)

  /**
   * The values of `xs` in order, or None as soon as one is missing: a loop that stops at the
   * first exception.
   */
  function AllSome<T>(xs: seq<Option<T>>): (r: Option<seq<T>>)
    ensures r.Some? ==> |r.value| == |xs|
  {
    if xs == [] then Some([])
    else
      match AllSome(xs[..|xs| - 1])
      case None => None
      case Some(init) =>
        match xs[|xs| - 1]
        case None => None
        case Some(x) => Some(init + [x])
  }

  /** `AllSome` succeeds exactly when every element is present, and then unwraps each. */
  lemma {:induction false} AllSomeSpec<T>(xs: seq<Option<T>>)
    ensures AllSome(xs).Some? <==> forall i :: 0 <= i < |xs| ==> xs[i].Some?
    ensures AllSome(xs).Some? ==> forall i :: 0 <= i < |xs| ==> AllSome(xs).value[i] == xs[i].value
  {
    if xs != [] {
      var init := xs[..|xs| - 1];
      AllSomeSpec(init);
      assert forall i :: 0 <= i < |init| ==> init[i] == xs[i];
    }
  }
}
