/** Option and Result, the failure-carrying values used throughout the model. */
module Wrappers {

  datatype Option<+T> = None | Some(value: T)

  datatype Result<+T, +E> = Ok(value: T) | Err(error: E)

  /** No value occurs twice. */
  predicate Distinct<T(==)>(xs: seq<T>) {
    forall i, j :: 0 <= i < j < |xs| ==> xs[i] != xs[j]
  }

  /**
    The values of a list of results computed one after another, or `None`
    as soon as one of them failed: a loop that appends each value and
    stops at the first failure.
   */
  function Collect<T>(xs: seq<Option<T>>): (r: Option<seq<T>>)
    ensures r.None? <==> exists i :: 0 <= i < |xs| && xs[i].None?
    ensures r.Some? ==> |r.value| == |xs| && forall i :: 0 <= i < |xs| ==> xs[i] == Some(r.value[i])
  {
    if xs == [] then Some([])
    else
      var init := xs[..|xs| - 1];
      assert forall i :: 0 <= i < |init| ==> init[i] == xs[i];
      match Collect(init)
      case None => None
      case Some(vs) =>
        match xs[|xs| - 1]
        case None => None
        case Some(v) => Some(vs + [v])
  }

  /** When nothing failed, the collected values are the values, in order. */
  lemma CollectSome<T>(xs: seq<Option<T>>, vs: seq<T>)
    requires |vs| == |xs| && forall i :: 0 <= i < |xs| ==> xs[i] == Some(vs[i])
    ensures Collect(xs) == Some(vs)
  {
    var r := Collect(xs);
    assert r.Some? by {
      forall i | 0 <= i < |xs| ensures xs[i].Some? {
        assert xs[i] == Some(vs[i]);
      }
    }
    assert r.value == vs;
  }
}
