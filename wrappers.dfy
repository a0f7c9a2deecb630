/** Option and Result, the two failure-carrying shapes the model uses for
    JavaScript's `undefined`/`null` results and for thrown exceptions. */
module Wrappers {

  datatype Option<+T> = None | Some(value: T)

  datatype Result<+R, +E> = Ok(value: R) | Err(error: E)
}
