/** Results of operations that raise in the program. */
module Outcomes {

  datatype Option<+T> = None | Some(value: T)

  datatype Error =
    | DecodeError       // input shorter than the header
    | ValueError        // a number that is no member of the enumeration, or an argument out of range
    | OverflowError     // a negative number given to an unsigned field
    | DecapError        // remaining hop limit above the maximum hop limit
    | KeyError          // a missing dictionary entry
    | NotImplemented    // a protocol version or next header that is not supported
    | RuntimeFailure    // a call made in the wrong state

  datatype Result<+T> = Ok(value: T) | Err(error: Error) {

    predicate IsFailure() {
      Err?
    }

    function PropagateFailure<U>(): Result<U>
      requires Err?
    {
      Err(error)
    }

    function Extract(): T
      requires Ok?
    {
      value
    }
  }
}
