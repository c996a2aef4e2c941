/** Optional values and results with an error, for the pipeline's partial operations. */
module Wrappers {

  datatype Option<+T> = None | Some(value: T)

  datatype Result<+T, +E> = Success(value: T) | Failure(error: E)

  /** The values of the results in order, or the first error. */
  function Collect<T, E>(results: seq<Result<T, E>>): Result<seq<T>, E> {
    if results == [] then Success([])
    else
      match Collect(results[..|results| - 1])
      case Failure(e) => Failure(e)
      case Success(values) =>
        match results[|results| - 1]
        case Failure(e) => Failure(e)
        case Success(v) => Success(values + [v])
  }

  /** Once a result is an error, the later results do not change it. */
  lemma {:induction false} CollectFailure<T, E>(results: seq<Result<T, E>>, i: int)
    requires 0 <= i <= |results|
    requires Collect(results[..i]).Failure?
    ensures Collect(results) == Collect(results[..i])
    decreases |results| - i
  {
    if i == |results| {
      assert results[..i] == results;
    } else {
      assert results[..i + 1][..i] == results[..i];
      CollectFailure(results, i + 1);
    }
  }

  /** Collecting succeeds exactly when every result does, and then gives their values in order. */
  lemma {:induction false} CollectAll<T, E>(results: seq<Result<T, E>>)
    ensures Collect(results).Success? <==> forall i :: 0 <= i < |results| ==> results[i].Success?
    ensures Collect(results).Success? ==>
      |Collect(results).value| == |results| && forall i :: 0 <= i < |results| ==> Collect(results).value[i] == results[i].value
  {
    if results != [] {
      var n := |results| - 1;
      var init := results[..n];
      CollectAll(init);
      assert forall i :: 0 <= i < n ==> init[i] == results[i];
      if Collect(results).Success? {
        var values := Collect(results).value;
        assert values[..n] == Collect(init).value;
        forall i | 0 <= i < n ensures values[i] == results[i].value {
          assert values[i] == values[..n][i];
        }
      }
    }
  }

  /** Result i is the first that fails. */
  predicate FailsFirstAt<T, E>(results: seq<Result<T, E>>, i: int) {
    0 <= i < |results| && results[i].Failure? && forall j :: 0 <= j < i ==> results[j].Success?
  }

  /** A failed collection reports the error of the first failing result. */
  lemma {:induction false} CollectFirstFailure<T, E>(results: seq<Result<T, E>>)
    requires Collect(results).Failure?
    ensures exists i :: FailsFirstAt(results, i) && results[i].error == Collect(results).error
  {
    var n := |results| - 1;
    var init := results[..n];
    if Collect(init).Failure? {
      CollectFirstFailure(init);
      var i :| FailsFirstAt(init, i) && init[i].error == Collect(init).error;
      assert FailsFirstAt(results, i) by {
        assert forall j :: 0 <= j <= i ==> init[j] == results[j];
      }
    } else {
      CollectAll(init);
      assert FailsFirstAt(results, n) by {
        assert forall j :: 0 <= j < n ==> init[j] == results[j];
      }
    }
  }

}
