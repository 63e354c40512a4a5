/**
 * Option and Result: the values the model uses where the TypeScript code
 * returns `undefined` or throws an `Error`.
 */
module Wrappers {

  datatype Option<T> = None | Some(value: T)

  datatype Result<T, E> = Ok(value: T) | Err(error: E)
}
