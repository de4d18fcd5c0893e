/**
 * The two shapes of loop both tools are built from, where the first
 * exception ends the whole loop: one result per element of a list, and a
 * state threaded through a list one element at a time.
 */
module Folds {
  import opened Wrappers

  // ---------------------------------------------------------------------
  // One result per element

  /** `f` applied to each element, element `i` with the index `first + i`, or the first failure. */
  function MapAll<T, U, E>(f: (int, T) -> Result<U, E>, first: int, xs: seq<T>): (r: Result<seq<U>, E>)
    ensures r.Success? ==> |r.value| == |xs|
    decreases |xs|
  {
    if xs == [] then Success([])
    else
      var n := |xs|;
      var init :- MapAll(f, first, xs[..n - 1]);
      var last :- f(first + n - 1, xs[n - 1]);
      Success(init + [last])
  }

  /** A failure on a prefix is the failure of the whole list. */
  lemma {:induction false} MapAllPrefix<T, U, E>(f: (int, T) -> Result<U, E>, first: int, xs: seq<T>, k: nat)
    requires k <= |xs| && MapAll(f, first, xs[..k]).Failure?
    ensures MapAll(f, first, xs) == MapAll(f, first, xs[..k])
    decreases |xs| - k
  {
    if k < |xs| {
      var init := xs[..|xs| - 1];
      assert init[..k] == xs[..k];
      MapAllPrefix(f, first, init, k);
    } else {
      assert xs[..k] == xs;
    }
  }

  /** A successful prefix grows by the next element's result. */
  lemma MapAllExtend<T, U, E>(f: (int, T) -> Result<U, E>, first: int, xs: seq<T>, i: nat)
    requires i < |xs| && MapAll(f, first, xs[..i]).Success? && f(first + i, xs[i]).Success?
    ensures MapAll(f, first, xs[..i + 1]) == Success(MapAll(f, first, xs[..i]).value + [f(first + i, xs[i]).value])
  {
    assert xs[..i + 1][..i] == xs[..i];
  }

  /** The first failing element ends the whole list with its error. */
  lemma MapAllStops<T, U, E>(f: (int, T) -> Result<U, E>, first: int, xs: seq<T>, i: nat)
    requires i < |xs| && MapAll(f, first, xs[..i]).Success? && f(first + i, xs[i]).Failure?
    ensures MapAll(f, first, xs) == Failure(f(first + i, xs[i]).error)
  {
    assert xs[..i + 1][..i] == xs[..i];
    MapAllPrefix(f, first, xs, i + 1);
  }

  /** Every element succeeds, each with its own index. */
  predicate AllSucceed<T, U, E>(f: (int, T) -> Result<U, E>, first: int, xs: seq<T>) {
    forall i :: 0 <= i < |xs| ==> f(first + i, xs[i]).Success?
  }

  /** The list succeeds exactly when every element does. */
  lemma {:induction false} MapAllSucceeds<T, U, E>(f: (int, T) -> Result<U, E>, first: int, xs: seq<T>)
    ensures MapAll(f, first, xs).Success? <==> AllSucceed(f, first, xs)
    decreases |xs|
  {
    if xs != [] {
      var init := xs[..|xs| - 1];
      MapAllSucceeds(f, first, init);
      assert forall i :: 0 <= i < |init| ==> init[i] == xs[i];
    }
  }

  /** A successful list holds each element's own result, in order. */
  lemma {:induction false} MapAllOneEach<T, U, E>(f: (int, T) -> Result<U, E>, first: int, xs: seq<T>)
    requires MapAll(f, first, xs).Success?
    ensures forall i :: 0 <= i < |xs| ==> f(first + i, xs[i]) == Success(MapAll(f, first, xs).value[i])
    decreases |xs|
  {
    if xs != [] {
      var n := |xs|;
      var init := xs[..n - 1];
      MapAllOneEach(f, first, init);
      forall i | 0 <= i < n - 1
        ensures f(first + i, xs[i]) == Success(MapAll(f, first, xs).value[i])
      {
        assert init[i] == xs[i];
      }
    }
  }

  /** A failing list fails with the error of its first failing element. */
  lemma {:induction false} MapAllFirstFailure<T, U, E>(f: (int, T) -> Result<U, E>, first: int, xs: seq<T>)
    returns (k: nat)
    requires MapAll(f, first, xs).Failure?
    ensures k < |xs| && AllSucceed(f, first, xs[..k]) && f(first + k, xs[k]).Failure?
    ensures MapAll(f, first, xs) == Failure(f(first + k, xs[k]).error)
    decreases |xs|
  {
    var init := xs[..|xs| - 1];
    if MapAll(f, first, init).Failure? {
      k := MapAllFirstFailure(f, first, init);
      assert init[..k] == xs[..k] && init[k] == xs[k];
    } else {
      MapAllSucceeds(f, first, init);
      k := |xs| - 1;
      assert init == xs[..k];
    }
  }

  // ---------------------------------------------------------------------
  // A state threaded through a list

  /** `step` applied to the state and each element in turn, from `init`, or the first failure. */
  function Accumulate<S, T, E>(step: (S, T) -> Result<S, E>, init: S, xs: seq<T>): Result<S, E>
    decreases |xs|
  {
    if xs == [] then Success(init)
    else
      var before :- Accumulate(step, init, xs[..|xs| - 1]);
      step(before, xs[|xs| - 1])
  }

  /** A failure on a prefix is the failure of the whole list. */
  lemma {:induction false} AccumulatePrefix<S, T, E>(step: (S, T) -> Result<S, E>, init: S, xs: seq<T>, k: nat)
    requires k <= |xs| && Accumulate(step, init, xs[..k]).Failure?
    ensures Accumulate(step, init, xs) == Accumulate(step, init, xs[..k])
    decreases |xs| - k
  {
    if k < |xs| {
      var prefix := xs[..|xs| - 1];
      assert prefix[..k] == xs[..k];
      AccumulatePrefix(step, init, prefix, k);
    } else {
      assert xs[..k] == xs;
    }
  }

  /** One more element is one more step from the state so far. */
  lemma AccumulateStep<S, T, E>(step: (S, T) -> Result<S, E>, init: S, xs: seq<T>, i: nat, before: S)
    requires i < |xs| && Accumulate(step, init, xs[..i]) == Success(before)
    ensures Accumulate(step, init, xs[..i + 1]) == step(before, xs[i])
  {
    assert xs[..i + 1][..i] == xs[..i];
  }
}
