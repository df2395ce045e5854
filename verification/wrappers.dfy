/** Option and Result: the absent values and thrown errors of the modelled
    JavaScript, made explicit. */
module Wrappers {

  /** A value that may be missing (`null` / `undefined` in the source). */
  datatype Option<+T> = None | Some(value: T)

  /** The outcome of an operation that can throw in the source. */
  datatype Result<+T, +E> = Ok(value: T) | Err(error: E)
}
