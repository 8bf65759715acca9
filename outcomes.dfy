/** Python exceptions raised by the modelled code, as values.

    An operation that can raise returns a `Result`; a statement that only
    changes state returns an `Outcome`. Both work with `:-`.
 */
module Outcomes {

  /** The exception classes the modelled code can raise. */
  datatype Error =
    | KeyError(key: string)     // a dictionary lookup of an absent key
    | IndexError                // a list index past the end
    | ValueError                // unpacking, casting, `min` of an empty set, ...
    | TypeError                 // an operator applied to the wrong kind of value
    | AttributeError            // an attribute missing on the object
    | ZeroDivisionError         // Python or mathutils division by zero
    | NonFinite                 // numpy division by zero, which yields inf/nan

  datatype Option<+T> = None | Some(value: T)

  datatype Result<+T> = Success(value: T) | Failure(error: Error) {
    predicate IsFailure() {
      Failure?
    }

    function PropagateFailure<U>(): Result<U>
      requires Failure?
    {
      Failure(error)
    }

    function Extract(): T
      requires Success?
    {
      value
    }
  }

  datatype Outcome = Pass | Fail(error: Error) {
    predicate IsFailure() {
      Fail?
    }

    function PropagateFailure(): Outcome
      requires Fail?
    {
      this
    }
  }

  /** A non-empty set has a member: what lets a loop over a dictionary's
      keys pick the next one. */
  lemma MemberOf<T>(s: set<T>) returns (x: T)
    requires s != {}
    ensures x in s
  {
    if forall y :: y !in s {
      assert false;
    }
    x :| x in s;
  }
}
