/** Option and Result values for the places where the Python and JavaScript
    sources raise an exception or return a missing value. */
module Wrappers {

  datatype Option<+T> = None | Some(value: T)

  /** The exception classes the modelled code can raise, with the offending text. */
  datatype Error =
    | KeyError(key: string)          // a missing dictionary key
    | ValueError(message: string)    // a failed unpacking, int() or explicit raise
    | IndexError(message: string)    // indexing an empty sequence
    | AttributeError(message: string)
    | TypeError(message: string)     // an operation applied to a value of the wrong type
    | Exception(message: string)     // a bare `raise Exception(...)`

  datatype Result<+T> = Ok(value: T) | Err(error: Error)
}
