/** Option and Result values, used for the model's "absent" values and for
    the source's thrown errors and error returns. */
module Wrappers {

  datatype Option<+T> = None | Some(value: T)

  /** A computation that either produced a value or threw an error whose
      message is `error`. */
  datatype Result<+T> = Ok(value: T) | Err(error: string)
}
