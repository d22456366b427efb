/** Failure-compatible wrappers shared by every module of the model:
    `Option` stands for a nullable reference or an absent key, `Result` for a
    call that either returns a value or raises an exception (carried as its
    message). */
module Wrappers {

  datatype Option<+T> = None | Some(value: T) {

    predicate IsFailure() {
      None?
    }

    function PropagateFailure<U>(): Option<U>
      requires None?
    {
      None
    }

    function Extract(): T
      requires Some?
    {
      value
    }

    /** The value, or `default` when absent (Python's `x or default` on an
        optional value). */
    function GetOr(default: T): T {
      match this
      case Some(v) => v
      case None => default
    }
  }

  datatype Result<+R, +E> = Success(value: R) | Failure(error: E) {

    predicate IsFailure() {
      Failure?
    }

    function PropagateFailure<U>(): Result<U, E>
      requires Failure?
    {
      Failure(error)
    }

    function Extract(): R
      requires Success?
    {
      value
    }
  }

  /** The first present value of `xs`: a chain of "try this, otherwise the
      next one". */
  function FirstSome<T>(xs: seq<Option<T>>): (r: Option<T>)
    ensures r.None? <==> forall i :: 0 <= i < |xs| ==> xs[i].None?
    ensures r.Some? ==> exists i :: 0 <= i < |xs| && xs[i] == r && forall k :: 0 <= k < i ==> xs[k].None?
  {
    if |xs| == 0 then None
    else if xs[0].Some? then xs[0]
    else
      var r := FirstSome(xs[1..]);
      assert r.Some? ==> exists i :: 1 <= i < |xs| && xs[i] == r && forall k :: 0 <= k < i ==> xs[k].None?;
      r
  }

  /** The first present value is the one at the first present position. */
  lemma {:induction false} FirstSomeAt<T>(xs: seq<Option<T>>, j: nat)
    requires j < |xs| && xs[j].Some?
    requires forall k :: 0 <= k < j ==> xs[k].None?
    ensures FirstSome(xs) == xs[j]
  {
    if j > 0 {
      FirstSomeAt(xs[1..], j - 1);
    }
  }
}
