/** Error kinds raised by the client-key-exchange code, and the failure-compatible
    wrappers (`Result`, `Option`, `Outcome`) every operation of the model returns. */
module Errors {

  /** The error codes the key-exchange functions can raise. An external primitive
      may fail with any of them, and its error is passed on unchanged. */
  datatype ErrorKind =
    | BadMessage        // a declared length exceeds the bytes available
    | SizeMismatch      // a buffer or key has the wrong size
    | Safety            // an internal safety check failed (identity, cursor order, zero length)
    | Null              // a required object is absent
    | StufferOutOfData  // a fixed-width read ran past the written data

  datatype Option<+T> = None | Some(value: T)

  /** A value or the first error that stopped the computation. */
  datatype Result<+T> = Ok(value: T) | Err(error: ErrorKind) {
    predicate IsFailure() {
      Err?
    }

    function PropagateFailure<U>(): Result<U>
      requires Err?
    {
      Err(error)
    }

    function Extract(): T
      requires Ok?
    {
      value
    }
  }

  /** Success or failure of a step that produces no value. */
  datatype Outcome = Pass | Fail(error: ErrorKind)
}
