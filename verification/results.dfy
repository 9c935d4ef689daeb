/** Optional values and results that carry either a value or the exception
    the Python code would raise. */
module Results {

  datatype Option<T> = None | Some(value: T)

  datatype Result<T, E> = Ok(value: T) | Err(error: E)
}
