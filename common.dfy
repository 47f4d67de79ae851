/** Option and Result, the two wrappers the rest of the model uses for
    "maybe absent" values and for calls that either return or raise. */
module Common {

  datatype Option<+T> = None | Some(value: T)

  datatype Result<+T, +E> = Ok(value: T) | Err(error: E)
}
