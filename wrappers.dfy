/** Failure-carrying results shared by every module.
    A Python `assert` that fails becomes `Err(AssertionError)`; a Python float
    division by zero becomes `Err(ZeroDivision)`, indexing an empty list
    `Err(IndexError)`, and `min` or `max` of an empty list `Err(ValueError)`.
    `Err(OutOfFuel)` is the model's own: a loop the source does not bound ran
    for more rounds than the model allows it. */
module Wrappers {

  datatype Error = AssertionError | ZeroDivision | IndexError | ValueError | OutOfFuel

  datatype Result<+T> = Ok(value: T) | Err(error: Error) {
    predicate IsFailure() { Err? }

    function PropagateFailure<U>(): Result<U>
      requires Err?
    {
      Err(error)
    }

    function Extract(): T
      requires Ok?
    {
      value
    }
  }

  datatype Option<+T> = None | Some(value: T)

  /** Apply a failing step to every element, stopping at the first failure, as
      a Python loop or comprehension does when a call raises. */
  function MapAll<A, B>(xs: seq<A>, f: A -> Result<B>): (r: Result<seq<B>>)
    ensures r.Ok? <==> forall i :: 0 <= i < |xs| ==> f(xs[i]).Ok?
    ensures r.Ok? ==> |r.value| == |xs| && forall i :: 0 <= i < |xs| ==> f(xs[i]) == Ok(r.value[i])
    ensures r.Err? ==> exists i :: 0 <= i < |xs| && f(xs[i]) == Err(r.error) && forall j :: 0 <= j < i ==> f(xs[j]).Ok?
  {
    if |xs| == 0 then Ok([])
    else
      var head :- f(xs[0]);
      var tail :- MapAll(xs[1..], f);
      Ok([head] + tail)
  }
}
