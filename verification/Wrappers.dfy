/** The two failure shapes the rest of the project uses: an absent value and a failed call. */
module Wrappers {
  datatype Option<+T> = None | Some(value: T)

  datatype Result<+T, +E> = Ok(value: T) | Err(error: E)
}
