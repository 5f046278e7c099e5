/** Option, Result and the exceptions the modelled code raises or catches. */
module Wrappers {

  datatype Option<+T> = None | Some(value: T)

  /** The Python and JavaScript exceptions that the core raises, catches or lets escape. */
  datatype Error =
    | ZeroDivisionError        // Python: division or modulo by zero
    | TypeError                // Python: arithmetic with None
    | KeyError                 // Python: missing dict key
    | ValueError               // Python: list.remove of an absent item
    | AttributeError           // Python: attribute of None
    | DoesNotExist             // Django: get() matched no row
    | MultipleObjectsReturned  // Django: get() matched several rows
    | UserMustSelectCampaign   // campaign/models.py: no campaign can be chosen
    | IOError                  // Python: no such file
    | RangeError               // JavaScript: invalid array length

  /** The outcome of an operation that may raise. Usable with `:-`. */
  datatype Result<+T> = Ok(value: T) | Err(error: Error) {
    predicate IsFailure() { Err? }
    function PropagateFailure<U>(): Result<U> requires Err? { Err(error) }
    function Extract(): T requires Ok? { value }
  }

  /** A Result without a value: the operation either finished or raised. */
  datatype Outcome = Pass | Fail(error: Error) {
    predicate IsFailure() { Fail? }
    function PropagateFailure(): Outcome requires Fail? { this }
  }
}
