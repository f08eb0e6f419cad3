/** Failure-carrying values used across the model: the Go code returns
    `(value, ok)` pairs and `(value, error)` pairs, modelled here as Option
    and Result. */
module Wrappers {

  datatype Option<+T> = None | Some(value: T)

  datatype Result<+T, +E> = Ok(value: T) | Err(error: E)
}
