/** Optional values and error results, standing for Go's nil checks and
    for the `(value, error)` returns and panics of the monitor. */
module Results {

  datatype Option<+T> = None | Some(value: T)

  datatype Result<+T, +E> = Ok(value: T) | Err(error: E)
}
