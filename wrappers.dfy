/** Option and Result, the two shapes every remote answer and every parse takes in this model. */
module Wrappers {

  /** `None` stands for JavaScript's `null` (or `NaN` for a failed parse). */
  datatype Option<+T> = None | Some(value: T)

  /** The `{ data, error }` pair a remote call resolves to: `Err` carries `error.message`. */
  datatype Result<+T> = Ok(value: T) | Err(error: string)
}
