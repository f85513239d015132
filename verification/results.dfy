/** Failure-carrying values shared by the order actions: an optional value, and
    a value-or-error result standing in for the source's thrown errors. */
module Results {

  datatype Option<+T> = None | Some(value: T)

  datatype Result<+T, +E> = Ok(value: T) | Err(error: E)
}
