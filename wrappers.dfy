/** Option, the failure-compatible wrapper used for every call that may raise. */
module Wrappers {

  /** `None` stands for "the call raised"; `Some(v)` for a normal return of `v`. */
  datatype Option<+T> = None | Some(value: T) {

    /** The wrapped value, or `default` when the call raised. */
    function GetOr(default: T): T {
      match this
      case Some(v) => v
      case None => default
    }
  }

  /** A loop that calls `f` on each element in order, appending each result,
      and lets the first exception escape. */
  function CollectAll<A, B>(f: A -> Option<B>, xs: seq<A>): (r: Option<seq<B>>)
    ensures r.Some? ==> |r.value| == |xs|
  {
    if xs == [] then Some([])
    else
      match CollectAll(f, xs[..|xs| - 1])
      case None => None
      case Some(init) =>
        match f(xs[|xs| - 1])
        case None => None
        case Some(y) => Some(init + [y])
  }

  /** The loop finishes exactly when every call returns, and then it holds
      every call's result, in order. */
  lemma {:induction false} CollectAllPointwise<A, B>(f: A -> Option<B>, xs: seq<A>)
    ensures CollectAll(f, xs).Some? <==> forall i :: 0 <= i < |xs| ==> f(xs[i]).Some?
    ensures CollectAll(f, xs).Some? ==>
      forall i :: 0 <= i < |xs| ==> CollectAll(f, xs).value[i] == f(xs[i]).value
  {
    if xs != [] {
      var init := xs[..|xs| - 1];
      CollectAllPointwise(f, init);
      assert forall i :: 0 <= i < |init| ==> init[i] == xs[i];
    }
  }

  /** Once the loop fails on a prefix, it fails on the whole sequence. */
  lemma {:induction false} CollectAllFails<A, B>(f: A -> Option<B>, xs: seq<A>, n: nat)
    requires n <= |xs| && CollectAll(f, xs[..n]).None?
    ensures CollectAll(f, xs).None?
    decreases |xs| - n
  {
    if n < |xs| {
      assert xs[..n + 1][..n] == xs[..n];
      CollectAllFails(f, xs, n + 1);
    } else {
      assert xs[..n] == xs;
    }
  }

  /** One more turn of the loop: on success it appends the call's result, on
      an exception the loop fails. */
  lemma CollectAllStep<A, B>(f: A -> Option<B>, xs: seq<A>, k: nat, acc: seq<B>)
    requires k < |xs| && CollectAll(f, xs[..k]) == Some(acc)
    ensures f(xs[k]).None? ==> CollectAll(f, xs[..k + 1]).None?
    ensures f(xs[k]).Some? ==> CollectAll(f, xs[..k + 1]) == Some(acc + [f(xs[k]).value])
  {
    assert xs[..k + 1][..k] == xs[..k];
  }
}
