/** Failure-carrying values shared by the rest of the model. */
module Wrappers {

  /** An optional value: JavaScript's `null`/`undefined`/`NaN` become `None`. */
  datatype Option<+T> = None | Some(value: T)

  /** The outcome of a store query: rows, or the error the database raised. */
  datatype Result<+R> = Ok(value: R) | Err(message: string)
}
