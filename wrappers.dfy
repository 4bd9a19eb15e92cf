/** Small value wrappers shared by the whole model. */
module Wrappers {

  /** Python's `None` / Go's "no value": an optional value. */
  datatype Option<+T> = None | Some(value: T)

  /** The outcome of one call into code the model cannot see (a store request,
      a library call): either it returned a value or it raised with a message. */
  datatype CallResult<+T> = Returned(value: T) | Raised(message: string)
}
