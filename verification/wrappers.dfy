/** Failure-compatible wrappers shared by the Markov chain and CSV models.
    `Error` names the Java exception an operation ends in. */
module Wrappers {

  /** A value that may be missing, in place of a Java `null`. */
  datatype Option<+T> = None | Some(value: T)

  /** The exceptions the modelled Java code can raise. */
  datatype Error =
    | IllegalArgument   // IllegalArgumentException
    | NoSuchElement     // NoSuchElementException
    | IndexOutOfBounds  // IndexOutOfBoundsException
    | NullPointer       // NullPointerException (a method called on a missing table)

  /** Either a value or the exception that ended the computation; usable with `:-`. */
  datatype Result<+T> = Ok(value: T) | Err(error: Error) {

    predicate IsFailure() {
      Err?
    }

    function PropagateFailure<U>(): Result<U>
      requires Err?
    {
      Err(error)
    }

    function Extract(): T
      requires Ok?
    {
      value
    }
  }
}
